/**
 * The configuration lookup inside `getStatusBadge`: a status string selects
 * the colours and label of its badge. `StatusBadgeConfig` is the intended
 * lookup, where every status other than the three keys falls back to the
 * 'pending' badge; `StatusLookupAsWritten` is the lookup as the page writes
 * it, which differs exactly on the names inherited from `Object.prototype`.
 */
module StatusBadge {

  datatype BadgeConfig = BadgeConfig(bg: string, text: string, labelText: string)

  const PendingBadge: BadgeConfig := BadgeConfig("bg-yellow-100", "text-yellow-800", "Pending")
  const ApprovedBadge: BadgeConfig := BadgeConfig("bg-green-100", "text-green-800", "Approved")
  const RejectedBadge: BadgeConfig := BadgeConfig("bg-red-100", "text-red-800", "Rejected")

  /** The own properties of the `statusConfig` object literal. */
  const StatusConfig: map<string, BadgeConfig> :=
    map["pending" := PendingBadge, "approved" := ApprovedBadge, "rejected" := RejectedBadge]

  /**
   * The badge for `status`, with an own-property lookup: the configured
   * badge when `status` is one of the three keys, the pending badge otherwise.
   */
  function StatusBadgeConfig(status: string): (cfg: BadgeConfig)
    ensures cfg in StatusConfig.Values
    ensures status in StatusConfig ==> cfg == StatusConfig[status]
    ensures status !in StatusConfig ==> cfg == StatusConfig["pending"]
    ensures cfg.labelText == "Pending" <==> status != "approved" && status != "rejected"
  {
    if status in StatusConfig then StatusConfig[status] else StatusConfig["pending"]
  }

  /**
   * Each known status shows its own label, and a status shows the pending
   * badge exactly when it is 'pending' or not one of the known statuses.
   */
  lemma StatusBadgeLabels(status: string)
    ensures StatusBadgeConfig("pending").labelText == "Pending"
    ensures StatusBadgeConfig("approved").labelText == "Approved"
    ensures StatusBadgeConfig("rejected").labelText == "Rejected"
    ensures StatusBadgeConfig(status) == PendingBadge <==> status != "approved" && status != "rejected"
  {
  }

  // The lookup as the page writes it: `statusConfig[status] || statusConfig.pending`.
  // Bracket access on an object literal also finds the members it inherits from
  // `Object.prototype`, and each of those is a truthy function or object, so the
  // `||` fallback is not taken and the badge reads an undefined label and colours.

  /** The names an object literal inherits from `Object.prototype`. */
  const ObjectPrototypeMembers: set<string> := {
    "constructor", "toString", "toLocaleString", "valueOf", "hasOwnProperty",
    "isPrototypeOf", "propertyIsEnumerable", "__proto__", "__defineGetter__",
    "__defineSetter__", "__lookupGetter__", "__lookupSetter__"
  }

  /** What the bracket lookup plus `||` yields: a badge configuration or an inherited member. */
  datatype LookupResult = Config(cfg: BadgeConfig) | Inherited(member: string)

  function StatusLookupAsWritten(status: string): (r: LookupResult)
    ensures r.Inherited? <==> status in ObjectPrototypeMembers
  {
    if status in StatusConfig then Config(StatusConfig[status])
    else if status in ObjectPrototypeMembers then Inherited(status)
    else Config(StatusConfig["pending"])
  }

  /** A status of "constructor" escapes the fallback: no badge configuration is found. */
  lemma ConstructorStatusEscapesFallback()
    ensures !StatusLookupAsWritten("constructor").Config?
    ensures StatusBadgeConfig("constructor") == PendingBadge
  {
  }

  /** Apart from the inherited member names, the written lookup and the intended one agree. */
  lemma LookupAgreesOutsidePrototype(status: string)
    requires status !in ObjectPrototypeMembers
    ensures StatusLookupAsWritten(status) == Config(StatusBadgeConfig(status))
  {
  }
}
