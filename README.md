# Organization categories list: filter, organization drop-down, status badge

This project models the logic of the super-admin "Organization Categories"
page of a business-verification web application
(`src/modules/super-admin/organization-categories/list.tsx`). The page keeps
a list of `OrganizationCategory` records. It offers a free-text search box and
an organization drop-down, and it shows the matching records in a table with a
coloured status badge. Three pieces of that page carry logic. Each is modelled
on its own, lifted out of the React component:

- **The filter effect** (`FilterCategories`). It starts from a copy of the
  list. If the search term is not empty, it keeps the records whose
  `categoryName`, `organizationName` or `industry` contains the term,
  ignoring case. If an organization other than `''` or `'all'` is selected,
  it also keeps only the records with that `organizationId`. Both steps are
  `Array.filter`, which keeps the input order (`Seqs.Keep`).
- **`getUniqueOrganizations`** (`GetUniqueOrganizations`). A `reduce` pushes
  `{id, name}` for each category whose `organizationId` is not yet in the
  accumulator; the `acc.find` test is the loop `FindOrg`. The method is
  proved equal to the recursive fold `OrgsOf` behind the `'All Organizations'`
  entry. Lemmas about `OrgsOf` state the drop-down's promises: the ids are
  distinct, they appear in first-occurrence order, each name is the one of
  the first category carrying that id, and every category's id appears.
- **The `statusConfig` lookup in `getStatusBadge`**. `StatusBadgeConfig` is
  the intended own-property lookup: `'pending'`, `'approved'` and `'rejected'`
  select their own badge, and every other status falls back to the pending
  badge. `StatusLookupAsWritten` is the lookup as list.tsx:123 writes it. The
  two differ exactly on the names inherited from `Object.prototype` (see
  `## Findings`).

Files, one module each: `categories.dfy` (the record), `seqs.dfy` (stable
filtering and the subsequence relation), `text.dfy` (ASCII lower-casing and
substring containment), `category_filter.dfy`, `organization_dropdown.dfy`,
`status_badge.dfy`, and `page.dfy` (how the drop-down and the filter fit
together).

Modelling choices:

- `toLowerCase` is ASCII lower-casing (`Text.LowerChar`); other characters
  are left unchanged. `includes` is the recursive predicate `Text.Contains`,
  proved equal to "the needle starts at some index".
- The record's `status` is a plain string. The page types it as
  `'pending' | 'approved' | 'rejected'`, but nothing enforces that at run time.
- The badge field `label` is called `labelText`, because `label` is a Dafny
  keyword.
- The page has no status filter: only the search term and the organization
  take part, and the empty string switches the organization filter off just
  as `'all'` does.
- A category whose `organizationId` is itself `'all'` gets a drop-down
  entry with the same id as the sentinel. Picking it switches the
  organization filter off. `CategoriesPage.EveryOptionShowsSomething`
  covers this case too: no entry can empty the table.

## Model

| member | source | states |
|---|---|---|
| `CategoryFilter.FilterCategories` | src/modules/super-admin/organization-categories/list.tsx:82-98 | the result is no longer than the list and holds only listed records; with an empty term and organization `''` or `'all'` the list is returned unchanged |
| `CategoryFilter.MatchesSearch` | src/modules/super-admin/organization-categories/list.tsx:86-90 | the search test on one record: an empty term matches every record, and a matching term is no longer than at least one of `categoryName`, `organizationName` and `industry` (with `Text.ContainsIffOccurs`: it occurs in one of them, lower-cased) |
| `CategoryFilter.FilterIsSinglePass` | src/modules/super-admin/organization-categories/list.tsx:83-97 | the two chained filters equal one stable filter by the AND of "term empty or matches" and "organization filter off or id equal" |
| `CategoryFilter.FilterIsSubsequence` | src/modules/super-admin/organization-categories/list.tsx:83-97 | the shown records are a subsequence of the list, in the list's relative order |
| `CategoryFilter.FilterMembership` | src/modules/super-admin/organization-categories/list.tsx:85-95 | a record is shown iff it is listed, the term is empty or matches one of the three lower-cased fields, and the organization is `''`, `'all'` or equal to its `organizationId` |
| `CategoryFilter.FilterCount` | src/modules/super-admin/organization-categories/list.tsx:83-97 | each shown record occurs exactly as often as in the list, each hidden one not at all: nothing is added or duplicated |
| `CategoryFilter.FilterIdempotent` | src/modules/super-admin/organization-categories/list.tsx:83-97 | filtering the shown records again with the same term and organization returns them unchanged |
| `CategoryFilter.FilterIgnoresCase` | src/modules/super-admin/organization-categories/list.tsx:87-89 | two search terms with the same lower-case form show the same records |
| `CategoryFilter.FilterLowerCasedTerm` | src/modules/super-admin/organization-categories/list.tsx:87-89 | typing the term already lower-cased shows the same records as typing it in any case |
| `Text.LowerChar` | src/modules/super-admin/organization-categories/list.tsx:87 | `toLowerCase` on one ASCII character: a capital's code point rises by 32, to its lower-case letter; the result is never a capital; other characters are unchanged |
| `Text.Lower` | src/modules/super-admin/organization-categories/list.tsx:87-89 | `toLowerCase` on a string keeps its length, lower-cases each character in place, and leaves no capital in the result; `Text.LowerIdempotent` is its partner |
| `Text.LowerIdempotent` | src/modules/super-admin/organization-categories/list.tsx:87-89 | lower-casing a lower-cased string changes nothing |
| `Text.Contains` | src/modules/super-admin/organization-categories/list.tsx:87-89 | `includes`: the empty needle is contained in every string, and a contained needle is no longer than the haystack; `Text.ContainsIffOccurs` is its partner |
| `Text.ContainsIffOccurs` | src/modules/super-admin/organization-categories/list.tsx:87-89 | `includes` holds iff the needle occurs as a contiguous block starting at some index of the haystack |
| `Seqs.Keep` | src/modules/super-admin/organization-categories/list.tsx:86-94 | `Array.filter`: the result is no longer than the input and holds only input elements that pass the test; `Seqs.KeepMember` and `Seqs.KeepCount` give the membership iff and the multiplicities |
| `Seqs.KeepIsSubsequence` | src/modules/super-admin/organization-categories/list.tsx:86 | `Array.filter` returns a subsequence of its input |
| `Seqs.KeepMember` | src/modules/super-admin/organization-categories/list.tsx:86 | an element is in the filtered array iff it is in the input and passes the test |
| `Seqs.KeepCount` | src/modules/super-admin/organization-categories/list.tsx:94 | `Array.filter` keeps each passing element as often as it occurs and drops every other |
| `Seqs.KeepAll` | src/modules/super-admin/organization-categories/list.tsx:94 | filtering an array whose elements all pass returns it unchanged |
| `Seqs.KeepExtensional` | src/modules/super-admin/organization-categories/list.tsx:86 | two tests that agree on every element filter identically |
| `Seqs.KeepKeep` | src/modules/super-admin/organization-categories/list.tsx:86-94 | two successive filters equal one filter by the conjunction of their tests |
| `Seqs.KeepIdempotent` | src/modules/super-admin/organization-categories/list.tsx:94 | filtering twice by the same test is filtering once |
| `OrganizationDropdown.Step` | src/modules/super-admin/organization-categories/list.tsx:134-140 | one `reduce` callback: afterwards the category's organization id is present, the accumulator is a prefix of the result, and exactly one entry is pushed iff the id was missing |
| `OrganizationDropdown.OrgsOf` | src/modules/super-admin/organization-categories/list.tsx:133-141 | the `reduce` over the categories: at most one entry per category, and the first entry is that of the first category; `OrgsOfIds`, `OrgsOfFirstOccurrence` and `OrgsOfOrder` state its contents |
| `OrganizationDropdown.StepOptionIds` | src/modules/super-admin/organization-categories/list.tsx:134-140 | one callback adds exactly the category's organization id to the set of entry ids |
| `OrganizationDropdown.OrgsOfIdSet` | src/modules/super-admin/organization-categories/list.tsx:133-141 | the set of entry ids equals the set of the categories' organization ids |
| `OrganizationDropdown.FindOrg` | src/modules/super-admin/organization-categories/list.tsx:134 | `acc.find` returns nothing iff no entry has the id (the predicate `HasOrg` is the `!acc.find(...)` test), and otherwise the first entry that has it |
| `OrganizationDropdown.GetUniqueOrganizations` | src/modules/super-admin/organization-categories/list.tsx:132-144 | the loop returns `OrganizationOptions`, that is `'All Organizations'` followed by the fold `OrgsOf`, as the array spread at line 143 builds it; the first entry is the sentinel and there are 1 + (number of distinct organization ids) entries |
| `OrganizationDropdown.FirstIndex` | src/modules/super-admin/organization-categories/list.tsx:134 | the index of the first category carrying an id: it carries the id and no earlier one does |
| `OrganizationDropdown.OrgsOfIds` | src/modules/super-admin/organization-categories/list.tsx:133-141 | the entries' ids are exactly the categories' organization ids: every category's id appears, and no other id does |
| `OrganizationDropdown.OrgsOfFirstOccurrenceAt` | src/modules/super-admin/organization-categories/list.tsx:134-140 | the entry at one index is `{id, name}` of the first category carrying its id |
| `OrganizationDropdown.OrgsOfFirstOccurrence` | src/modules/super-admin/organization-categories/list.tsx:134-140 | every entry is `{id, name}` of the first category carrying its id, so its name is that category's `organizationName` |
| `OrganizationDropdown.OrgsOfOrderAt` | src/modules/super-admin/organization-categories/list.tsx:134-141 | of two entries, the earlier one's id first occurs in the list before the later one's |
| `OrganizationDropdown.OrgsOfOrder` | src/modules/super-admin/organization-categories/list.tsx:134-141 | the entries follow the order in which their ids first occur in the list |
| `OrganizationDropdown.NewEntryIsFirstOccurrence` | src/modules/super-admin/organization-categories/list.tsx:134-140 | when the last category's id is not yet in the accumulator, that category is the first to carry the id |
| `OrganizationDropdown.OrgIdsDistinct` | src/modules/super-admin/organization-categories/list.tsx:134-141 | the ids after the sentinel are pairwise distinct |
| `OrganizationDropdown.OptionCount` | src/modules/super-admin/organization-categories/list.tsx:133-143 | the drop-down starts with `{id:'all', name:'All Organizations'}` and has 1 + (number of distinct organization ids) entries |
| `CategoriesPage.EveryOptionShowsSomething` | src/modules/super-admin/organization-categories/list.tsx:93-95 | with an empty search box and a non-empty list, choosing any drop-down entry leaves at least one record shown |
| `StatusBadge.StatusBadgeConfig` | src/modules/super-admin/organization-categories/list.tsx:117-123 | the lookup is total: the result is always one of the three configured badges, a known status selects its own, any other the pending badge; the label reads `Pending` iff the status is neither `'approved'` nor `'rejected'` (the intended own-property lookup; the code as written is `StatusLookupAsWritten`) |
| `StatusBadge.StatusBadgeLabels` | src/modules/super-admin/organization-categories/list.tsx:117-123 | `'pending'`, `'approved'` and `'rejected'` show `Pending`, `Approved` and `Rejected`; the pending badge itself, not just its label, is shown iff the status is neither `'approved'` nor `'rejected'` |
| `StatusBadge.StatusLookupAsWritten` | src/modules/super-admin/organization-categories/list.tsx:123 | the bracket lookup with its logical-or fallback yields an inherited `Object.prototype` member, not a badge, exactly for the inherited member names |
| `StatusBadge.ConstructorStatusEscapesFallback` | src/modules/super-admin/organization-categories/list.tsx:123 | the status `"constructor"` gets no badge configuration from the lookup as written, while the own-property lookup gives it the pending badge |
| `StatusBadge.LookupAgreesOutsidePrototype` | src/modules/super-admin/organization-categories/list.tsx:116-123 | for every status that is not an inherited member name, the lookup as written and the own-property lookup give the same badge |

## Left out

- JSX rendering, the loading skeleton, class names and layout
  (list.tsx:125-129, 154-296): presentation only. Only the configuration
  record that `getStatusBadge` selects is modelled, not the `<span>` it builds.
- The mock data loaded through `setTimeout` and React's `useState`/`useEffect`
  scheduling (list.tsx:19-79): timer and event-loop behaviour. The filter
  effect's body is modelled as a function of the list, the term and the
  selected organization.
- `formatDate` (list.tsx:146-152): it depends on `Date` parsing and locale
  formatting.
- `handleView`, `handleEdit`, `handleAddToPlatform` (list.tsx:100-114): they
  only navigate through `window.location` or write to the console.
- The service classes (`DataVerificationService`, `LocationPaymentService`,
  `UserSubscriptionService`): each method forwards to an `HttpService`, and
  `HttpService` is not part of this model. The verification lifecycle
  (draft, submitted, approved, rejected) is decided by the backend, not by
  this client code, so it is not modelled.
- `Text.LowerChar`: lower-cases ASCII letters only. JavaScript's
  `toLowerCase` also maps non-ASCII letters, and can change a string's length
  (for example U+0130). Full Unicode case mapping is not modelled.

## Findings

| source | as written | input that shows it | evidently intended | confidence | as-written member | corrected member |
|---|---|---|---|---|---|---|
| src/modules/super-admin/organization-categories/list.tsx:123 | the bracket lookup `statusConfig[status]`, with its logical-or fallback to `statusConfig.pending`, also finds members that the object literal inherits from `Object.prototype`; they are truthy, so the fallback is skipped and the badge gets an undefined label and colours | status `"constructor"` (also `"toString"`, `"__proto__"`, `"valueOf"`, ...) | every status that is not one of the three keys shows the pending badge | medium, not executed | `StatusBadge.ConstructorStatusEscapesFallback` | `StatusBadge.StatusBadgeConfig` |
