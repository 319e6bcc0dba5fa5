/**
 * `getUniqueOrganizations`: the entries of the organization drop-down,
 * one per distinct organization id in the order the ids first occur,
 * behind an 'All Organizations' entry.
 */
module OrganizationDropdown {
  import opened Categories

  datatype Option<T> = None | Some(value: T)

  /** One `<option>` of the drop-down. */
  datatype OrgOption = OrgOption(id: string, name: string)

  const AllOrganizations: OrgOption := OrgOption("all", "All Organizations")

  function OptionOf(c: Category): OrgOption {
    OrgOption(c.organizationId, c.organizationName)
  }

  /** The test `acc.find(org => org.id === id)` makes: is some entry's id equal to `id`? */
  predicate HasOrg(acc: seq<OrgOption>, id: string) {
    exists k :: 0 <= k < |acc| && acc[k].id == id
  }

  /** One step of the `reduce`: append the category's organization unless its id is already there. */
  function Step(acc: seq<OrgOption>, c: Category): (r: seq<OrgOption>)
    ensures HasOrg(r, c.organizationId)
    ensures acc <= r
    ensures |r| == if HasOrg(acc, c.organizationId) then |acc| else |acc| + 1
  {
    if HasOrg(acc, c.organizationId) then acc
    else
      var r := acc + [OptionOf(c)];
      assert r[|acc|].id == c.organizationId;
      r
  }

  /** The accumulator the `reduce` returns, defined over ever longer prefixes. */
  function OrgsOf(categories: seq<Category>): (r: seq<OrgOption>)
    ensures |r| <= |categories|
    ensures categories != [] ==> r != [] && r[0] == OptionOf(categories[0])
  {
    if categories == [] then []
    else Step(OrgsOf(categories[..|categories| - 1]), categories[|categories| - 1])
  }

  /** The drop-down entries as `getUniqueOrganizations` returns them. */
  function OrganizationOptions(categories: seq<Category>): seq<OrgOption> {
    [AllOrganizations] + OrgsOf(categories)
  }

  /** The distinct organization ids of the categories. */
  function IdSet(categories: seq<Category>): set<string> {
    set c | c in categories :: c.organizationId
  }

  function OptionIds(acc: seq<OrgOption>): set<string> {
    set o | o in acc :: o.id
  }

  /** The index of the first category with organization id `id`. */
  function FirstIndex(categories: seq<Category>, id: string): (i: nat)
    requires id in IdSet(categories)
    ensures i < |categories| && categories[i].organizationId == id
    ensures forall k :: 0 <= k < i ==> categories[k].organizationId != id
  {
    if categories[0].organizationId == id then 0
    else
      assert id in IdSet(categories[1..]) by {
        var c :| c in categories && c.organizationId == id;
        var k :| 0 <= k < |categories| && categories[k] == c;
        assert k != 0 && categories[1..][k - 1] == c;
      }
      1 + FirstIndex(categories[1..], id)
  }

  /** `acc.find(org => org.id === id)`: the first entry with that id, if any. */
  method FindOrg(acc: seq<OrgOption>, id: string) returns (found: Option<OrgOption>)
    ensures found.None? <==> !HasOrg(acc, id)
    ensures found.Some? ==> exists k :: 0 <= k < |acc| && acc[k] == found.value && acc[k].id == id
                                        && forall j :: 0 <= j < k ==> acc[j].id != id
  {
    var k := 0;
    while k < |acc|
      invariant 0 <= k <= |acc|
      invariant forall j :: 0 <= j < k ==> acc[j].id != id
    {
      if acc[k].id == id {
        return Some(acc[k]);
      }
      k := k + 1;
    }
    return None;
  }

  /** `getUniqueOrganizations`, with the accumulator that `reduce` threads through the list. */
  method GetUniqueOrganizations(categories: seq<Category>) returns (options: seq<OrgOption>)
    ensures options == OrganizationOptions(categories)
    ensures options[0] == AllOrganizations
    ensures |options| == 1 + |IdSet(categories)|
  {
    var acc: seq<OrgOption> := [];
    var i := 0;
    while i < |categories|
      invariant 0 <= i <= |categories|
      invariant acc == OrgsOf(categories[..i])
    {
      var category := categories[i];
      var found := FindOrg(acc, category.organizationId);
      if found.None? {
        acc := acc + [OptionOf(category)];
      }
      assert categories[..i + 1][..i] == categories[..i];
      i := i + 1;
    }
    assert categories[..i] == categories;
    options := [AllOrganizations] + acc;
    OptionCount(categories);
  }

  /** `find` succeeds exactly for the ids in the accumulator's id set. */
  lemma HasOrgIffOptionIds(acc: seq<OrgOption>, id: string)
    ensures HasOrg(acc, id) <==> id in OptionIds(acc)
  {
    if id in OptionIds(acc) {
      var o :| o in acc && o.id == id;
      var k :| 0 <= k < |acc| && acc[k] == o;
    }
  }

  /** One step of the `reduce` adds the category's organization id to the id set. */
  lemma StepOptionIds(acc: seq<OrgOption>, c: Category)
    ensures OptionIds(Step(acc, c)) == OptionIds(acc) + {c.organizationId}
  {
    HasOrgIffOptionIds(acc, c.organizationId);
    if !HasOrg(acc, c.organizationId) {
      assert OptionIds(acc + [OptionOf(c)]) == OptionIds(acc) + {c.organizationId};
    }
  }

  lemma {:induction false} OrgsOfIdSet(categories: seq<Category>)
    ensures OptionIds(OrgsOf(categories)) == IdSet(categories)
    decreases |categories|
  {
    if categories != [] {
      var n := |categories| - 1;
      var prefix := categories[..n];
      OrgsOfIdSet(prefix);
      StepOptionIds(OrgsOf(prefix), categories[n]);
      assert categories == prefix + [categories[n]];
      assert IdSet(categories) == IdSet(prefix) + {categories[n].organizationId};
    } else {
      assert OrgsOf(categories) == [];
    }
  }

  /** The entries carry exactly the organization ids that occur in the categories. */
  lemma OrgsOfIds(categories: seq<Category>)
    ensures OptionIds(OrgsOf(categories)) == IdSet(categories)
    ensures forall id :: HasOrg(OrgsOf(categories), id) <==> id in IdSet(categories)
  {
    OrgsOfIdSet(categories);
    forall id ensures HasOrg(OrgsOf(categories), id) <==> id in IdSet(categories) {
      HasOrgIffOptionIds(OrgsOf(categories), id);
    }
  }

  lemma FirstIndexPrefix(categories: seq<Category>, n: nat, id: string)
    requires n <= |categories| && id in IdSet(categories[..n])
    ensures id in IdSet(categories)
    ensures FirstIndex(categories[..n], id) == FirstIndex(categories, id)
  {
  }

  /**
   * The entries built from the first `n` categories keep, in the whole list,
   * the first index they had in that prefix, and it lies before `n`.
   */
  lemma PrefixEntriesKeepFirstIndex(categories: seq<Category>, n: nat)
    requires n <= |categories|
    ensures forall i :: 0 <= i < |OrgsOf(categories[..n])| ==>
              OrgsOf(categories[..n])[i].id in IdSet(categories)
              && FirstIndex(categories, OrgsOf(categories[..n])[i].id) < n
  {
    var acc := OrgsOf(categories[..n]);
    OrgsOfIds(categories[..n]);
    forall i | 0 <= i < |acc|
      ensures acc[i].id in IdSet(categories) && FirstIndex(categories, acc[i].id) < n
    {
      FirstIndexPrefix(categories, n, acc[i].id);
    }
  }

  /** A category whose id the prefix before it lacks is the first carrying that id. */
  lemma NewEntryIsFirstOccurrence(categories: seq<Category>)
    requires categories != []
    requires !HasOrg(OrgsOf(categories[..|categories| - 1]), categories[|categories| - 1].organizationId)
    ensures categories[|categories| - 1].organizationId in IdSet(categories)
    ensures FirstIndex(categories, categories[|categories| - 1].organizationId) == |categories| - 1
  {
    var n := |categories| - 1;
    OrgsOfIds(categories[..n]);
    assert categories[n] in categories;
  }

  /** `o` is `{id, name}` of the first category carrying the id `o.id`. */
  predicate IsFirstOccurrence(categories: seq<Category>, o: OrgOption) {
    o.id in IdSet(categories) && o == OptionOf(categories[FirstIndex(categories, o.id)])
  }

  lemma {:induction false} OrgsOfFirstOccurrenceAt(categories: seq<Category>, i: int)
    requires 0 <= i < |OrgsOf(categories)|
    ensures IsFirstOccurrence(categories, OrgsOf(categories)[i])
    decreases |categories|
  {
    var n := |categories| - 1;
    var prefix := categories[..n];
    var acc := OrgsOf(prefix);
    if i < |acc| {
      OrgsOfFirstOccurrenceAt(prefix, i);
      assert OrgsOf(categories)[i] == acc[i];
      FirstIndexPrefix(categories, n, acc[i].id);
      assert categories[FirstIndex(prefix, acc[i].id)] == prefix[FirstIndex(prefix, acc[i].id)];
    } else {
      NewEntryIsFirstOccurrence(categories);
    }
  }

  /** Entry i is `{id, name}` of the first category carrying its id. */
  lemma OrgsOfFirstOccurrence(categories: seq<Category>)
    ensures forall i :: 0 <= i < |OrgsOf(categories)| ==> IsFirstOccurrence(categories, OrgsOf(categories)[i])
  {
    forall i | 0 <= i < |OrgsOf(categories)|
      ensures IsFirstOccurrence(categories, OrgsOf(categories)[i])
    {
      OrgsOfFirstOccurrenceAt(categories, i);
    }
  }

  /** Both ids occur in the categories, and `a` occurs first before `b` does. */
  predicate FirstOccursBefore(categories: seq<Category>, a: string, b: string) {
    a in IdSet(categories) && b in IdSet(categories) && FirstIndex(categories, a) < FirstIndex(categories, b)
  }

  /** Entries i < j: the id of entry i first occurs before the id of entry j. */
  lemma {:induction false} OrgsOfOrderAt(categories: seq<Category>, i: int, j: int)
    requires 0 <= i < j < |OrgsOf(categories)|
    ensures FirstOccursBefore(categories, OrgsOf(categories)[i].id, OrgsOf(categories)[j].id)
    decreases |categories|
  {
    var n := |categories| - 1;
    var prefix := categories[..n];
    var acc := OrgsOf(prefix);
    PrefixEntriesKeepFirstIndex(categories, n);
    assert OrgsOf(categories)[i] == acc[i];
    if j < |acc| {
      OrgsOfOrderAt(prefix, i, j);
      assert OrgsOf(categories)[j] == acc[j];
      FirstIndexPrefix(categories, n, acc[i].id);
      FirstIndexPrefix(categories, n, acc[j].id);
    } else {
      NewEntryIsFirstOccurrence(categories);
    }
  }

  /** The entries follow the order in which their ids first occur in the categories. */
  lemma OrgsOfOrder(categories: seq<Category>)
    ensures forall i, j :: 0 <= i < j < |OrgsOf(categories)| ==>
              FirstOccursBefore(categories, OrgsOf(categories)[i].id, OrgsOf(categories)[j].id)
  {
    forall i, j | 0 <= i < j < |OrgsOf(categories)|
      ensures FirstOccursBefore(categories, OrgsOf(categories)[i].id, OrgsOf(categories)[j].id)
    {
      OrgsOfOrderAt(categories, i, j);
    }
  }

  /** The ids after the 'All Organizations' entry are pairwise distinct. */
  lemma OrgIdsDistinct(categories: seq<Category>)
    ensures forall i, j :: 1 <= i < j < |OrganizationOptions(categories)| ==>
              OrganizationOptions(categories)[i].id != OrganizationOptions(categories)[j].id
  {
    var orgs := OrgsOf(categories);
    OrgsOfOrder(categories);
    forall i, j | 1 <= i < j < |OrganizationOptions(categories)|
      ensures OrganizationOptions(categories)[i].id != OrganizationOptions(categories)[j].id
    {
      assert OrganizationOptions(categories)[i] == orgs[i - 1];
      assert OrganizationOptions(categories)[j] == orgs[j - 1];
    }
  }

  /** A sequence of entries with distinct ids is as long as its set of ids. */
  lemma {:induction false} DistinctIdsCount(acc: seq<OrgOption>)
    requires forall i, j :: 0 <= i < j < |acc| ==> acc[i].id != acc[j].id
    ensures |OptionIds(acc)| == |acc|
  {
    if acc != [] {
      var last := |acc| - 1;
      DistinctIdsCount(acc[..last]);
      assert acc == acc[..last] + [acc[last]];
      assert OptionIds(acc) == OptionIds(acc[..last]) + {acc[last].id};
    }
  }

  /**
   * The drop-down starts with 'All Organizations' and has one more entry
   * than there are distinct organization ids.
   */
  lemma OptionCount(categories: seq<Category>)
    ensures OrganizationOptions(categories)[0] == AllOrganizations
    ensures |OrganizationOptions(categories)| == 1 + |IdSet(categories)|
  {
    var orgs := OrgsOf(categories);
    OrgsOfIds(categories);
    OrgsOfOrder(categories);
    DistinctIdsCount(orgs);
  }
}
