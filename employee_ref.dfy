/**
 * Finding the employee profile that belongs to the signed-in account: the
 * direct user link first, then (when allowed) the legacy fall-backs by id
 * variant, by e-mail in the contact column and by name. The employee table
 * is a sequence of rows in query order; `.first()` is the first match.
 */
module EmployeeRef {
  import opened Wrappers
  import opened Text
  import opened Sorting

  /** The signed-in account: its id (None when it has none), e-mail and name (blank when unset). */
  datatype Actor = Actor(id: Option<string>, email: string, name: string)

  /** An employee row as the lookup sees it: id, linked user id, contact and name. */
  datatype EmployeeRow = EmployeeRow(id: string, userId: Option<string>, contact: string, name: string)

  /** What the lookup yields: the row itself (direct link), only its id (fall-back), or nothing. */
  datatype EmployeeRef = NoRef | Direct(row: EmployeeRow) | ByFallback(id: string)

  /** The id string the caller receives, if any. */
  function RefId(r: EmployeeRef): Option<string> {
    match r
    case NoRef => None
    case Direct(row) => Some(row.id)
    case ByFallback(id) => Some(id)
  }

  predicate LinkedTo(aid: string, row: EmployeeRow) {
    row.userId == Some(aid)
  }

  predicate UserIdIn(variants: set<string>, row: EmployeeRow) {
    row.userId.Some? && row.userId.value in variants
  }

  /** `contact_lower == email` with email already trimmed and lower-cased. */
  predicate ContactIs(email: string, row: EmployeeRow) {
    Lower(row.contact) == email
  }

  predicate NameIs(name: string, row: EmployeeRow) {
    Lower(row.name) == name
  }

  // The four match tests as first-class predicates, shared by the searches and the tiers.
  function Linked(aid: string): EmployeeRow -> bool { row => LinkedTo(aid, row) }
  function InVariants(variants: set<string>): EmployeeRow -> bool { row => UserIdIn(variants, row) }
  function HasContact(email: string): EmployeeRow -> bool { row => ContactIs(email, row) }
  function HasName(name: string): EmployeeRow -> bool { row => NameIs(name, row) }

  /**
   * `_identifier_variants(actor_id)` for a given variants function: none
   * when the actor has no id.
   */
  function ActorVariants(actor: Actor, idVariants: string -> set<string>): (r: set<string>)
    ensures actor.id.None? ==> r == {}
    ensures actor.id.Some? ==> r == idVariants(actor.id.value)
  {
    if actor.id.Some? then idVariants(actor.id.value) else {}
  }

  /**
   * `resolve_employee_ref`: `variants` stands for the id variants of the
   * actor's id (see ActorVariants), which the view helpers compute.
   */
  function Resolve(actor: Option<Actor>, rows: seq<EmployeeRow>, allowFallback: bool, variants: set<string>): (r: EmployeeRef)
    ensures actor.None? ==> r == NoRef
    ensures r.Direct? ==> r.row in rows && actor.value.id.Some? && LinkedTo(actor.value.id.value, r.row)
    ensures r.ByFallback? ==> allowFallback && exists i :: 0 <= i < |rows| && rows[i].id == r.id
    ensures !allowFallback ==> !r.ByFallback?
  {
    if actor.None? then NoRef
    else
      var a := actor.value;
      var direct := if a.id.Some? && a.id.value != "" then FindFirst(rows, Linked(a.id.value)) else None;
      if direct.Some? then Direct(rows[direct.value])
      else if !allowFallback then NoRef
      else ResolveFallback(a, rows, variants)
  }

  /** The three fall-back searches, in their fixed order. */
  function ResolveFallback(a: Actor, rows: seq<EmployeeRow>, variants: set<string>): (r: EmployeeRef)
    ensures r.NoRef? || r.ByFallback?
    ensures r.ByFallback? ==> exists i :: 0 <= i < |rows| && rows[i].id == r.id
  {
    var byVariant := FindFirst(rows, InVariants(variants));
    if variants != {} && byVariant.Some? then ByFallback(rows[byVariant.value].id)
    else
      var email := Lower(Trim(a.email));
      var byEmail := FindFirst(rows, HasContact(email));
      if email != "" && byEmail.Some? then ByFallback(rows[byEmail.value].id)
      else
        var name := Lower(Trim(a.name));
        var byName := FindFirst(rows, HasName(name));
        if name != "" && byName.Some? then ByFallback(rows[byName.value].id)
        else NoRef
  }

  /**
   * The same precedence stated without searching: every tier's matches in
   * table order, the tiers one after the other; the answer is the head of
   * the first non-empty tier.
   */
  function Tiers(a: Actor, rows: seq<EmployeeRow>, allowFallback: bool, variants: set<string>): seq<seq<EmployeeRow>> {
    var email := Lower(Trim(a.email));
    var name := Lower(Trim(a.name));
    [ if a.id.Some? && a.id.value != "" then Filter(rows, Linked(a.id.value)) else [],
      if allowFallback && variants != {} then Filter(rows, InVariants(variants)) else [],
      if allowFallback && email != "" then Filter(rows, HasContact(email)) else [],
      if allowFallback && name != "" then Filter(rows, HasName(name)) else [] ]
  }

  /** Past the direct link, the fall-back answers with the head of the first non-empty fall-back tier. */
  lemma FallbackIsFirstTier(a: Actor, rows: seq<EmployeeRow>, variants: set<string>)
    ensures var t := Tiers(a, rows, true, variants);
      ResolveFallback(a, rows, variants) ==
        if t[1] != [] then ByFallback(t[1][0].id)
        else if t[2] != [] then ByFallback(t[2][0].id)
        else if t[3] != [] then ByFallback(t[3][0].id)
        else NoRef
  {
    FindFirstIsFilterHead(rows, InVariants(variants));
    FindFirstIsFilterHead(rows, HasContact(Lower(Trim(a.email))));
    FindFirstIsFilterHead(rows, HasName(Lower(Trim(a.name))));
  }

  /** The lookup answers with the head of the first non-empty tier: the direct link as a row, the others as an id. */
  lemma ResolveIsFirstTier(a: Actor, rows: seq<EmployeeRow>, allowFallback: bool, variants: set<string>)
    ensures var t := Tiers(a, rows, allowFallback, variants);
      Resolve(Some(a), rows, allowFallback, variants) ==
        if t[0] != [] then Direct(t[0][0])
        else if t[1] != [] then ByFallback(t[1][0].id)
        else if t[2] != [] then ByFallback(t[2][0].id)
        else if t[3] != [] then ByFallback(t[3][0].id)
        else NoRef
  {
    var t := Tiers(a, rows, allowFallback, variants);
    if a.id.Some? && a.id.value != "" {
      FindFirstIsFilterHead(rows, Linked(a.id.value));
    }
    if t[0] != [] {
      assert Resolve(Some(a), rows, allowFallback, variants) == Direct(t[0][0]);
    } else if allowFallback {
      assert Resolve(Some(a), rows, allowFallback, variants) == ResolveFallback(a, rows, variants);
      FallbackIsFirstTier(a, rows, variants);
    } else {
      assert Resolve(Some(a), rows, allowFallback, variants) == NoRef;
    }
  }

  /** A direct link wins over every fall-back, whatever the other rows hold. */
  lemma DirectLinkWins(a: Actor, rows: seq<EmployeeRow>, allowFallback: bool, variants: set<string>, k: nat)
    requires a.id.Some? && a.id.value != ""
    requires k < |rows| && LinkedTo(a.id.value, rows[k])
    ensures Resolve(Some(a), rows, allowFallback, variants).Direct?
  {
  }

  /** Without fall-back, an account with no linked row gets nothing. */
  lemma NoFallbackNoLink(a: Actor, rows: seq<EmployeeRow>, variants: set<string>)
    requires a.id.None? || forall i :: 0 <= i < |rows| ==> !LinkedTo(a.id.value, rows[i])
    ensures Resolve(Some(a), rows, false, variants) == NoRef
  {
  }

  /** An e-mail match is used only when no row is linked directly or by id variant. */
  lemma {:induction false} EmailBeforeName(a: Actor, rows: seq<EmployeeRow>, variants: set<string>, k: nat)
    requires k < |rows| && Lower(Trim(a.email)) != "" && ContactIs(Lower(Trim(a.email)), rows[k])
    requires a.id.None? || forall i :: 0 <= i < |rows| ==> !LinkedTo(a.id.value, rows[i])
    requires forall i :: 0 <= i < |rows| ==> !UserIdIn(variants, rows[i])
    ensures var r := Resolve(Some(a), rows, true, variants);
      r.ByFallback? && exists j :: 0 <= j <= k && rows[j].id == r.id && ContactIs(Lower(Trim(a.email)), rows[j])
  {
    var email := Lower(Trim(a.email));
    var byEmail := FindFirst(rows, HasContact(email));
    assert HasContact(email)(rows[k]);
    assert byEmail.Some? && byEmail.value <= k;
  }

  // ---------------------------------------------------------------------------
  // The lookup the leave-request view does inline

  /**
   * The staff-side lookup in the leave-request view: linked user id, then
   * contact equal to the e-mail ignoring case, then name equal ignoring case.
   */
  function LeaveEmployee(a: Actor, rows: seq<EmployeeRow>): (r: Option<EmployeeRow>)
    ensures r.Some? ==> r.value in rows
  {
    var byUser := if a.id.Some? && a.id.value != "" then FindFirst(rows, Linked(a.id.value)) else None;
    if byUser.Some? then Some(rows[byUser.value])
    else
      var email := Lower(Trim(a.email));
      // contact__iexact against an e-mail that is already lower-cased
      var byEmail := FindFirst(rows, HasContact(email));
      if email != "" && byEmail.Some? then Some(rows[byEmail.value])
      else
        var name := Trim(a.name);
        // name__iexact: both sides compared lower-cased
        var byName := FindFirst(rows, HasName(Lower(name)));
        if name != "" && byName.Some? then Some(rows[byName.value])
        else None
  }

  lemma LowerEmpty(s: string)
    ensures Lower(s) == "" <==> s == ""
  {
  }

  /** The inline lookup finds the same employee as the shared resolver with fall-back and no id variants. */
  lemma LeaveEmployeeAgrees(a: Actor, rows: seq<EmployeeRow>)
    ensures RefId(Resolve(Some(a), rows, true, {})) ==
      match LeaveEmployee(a, rows) case None => None case Some(row) => Some(row.id)
  {
    var direct := if a.id.Some? && a.id.value != "" then FindFirst(rows, Linked(a.id.value)) else None;
    if direct.Some? {
      assert Resolve(Some(a), rows, true, {}) == Direct(rows[direct.value]);
      assert LeaveEmployee(a, rows) == Some(rows[direct.value]);
    } else {
      assert Resolve(Some(a), rows, true, {}) == ResolveFallback(a, rows, {});
      FallbackAgrees(a, rows);
    }
  }

  lemma FallbackAgrees(a: Actor, rows: seq<EmployeeRow>)
    requires !(a.id.Some? && a.id.value != "" && FindFirst(rows, Linked(a.id.value)).Some?)
    ensures RefId(ResolveFallback(a, rows, {})) ==
      match LeaveEmployee(a, rows) case None => None case Some(row) => Some(row.id)
  {
    var email := Lower(Trim(a.email));
    var byEmail := FindFirst(rows, HasContact(email));
    if email != "" && byEmail.Some? {
      assert ResolveFallback(a, rows, {}) == ByFallback(rows[byEmail.value].id);
      assert LeaveEmployee(a, rows) == Some(rows[byEmail.value]);
    } else {
      var name := Trim(a.name);
      LowerEmpty(name);
      var byName := FindFirst(rows, HasName(Lower(name)));
      if name != "" && byName.Some? {
        assert ResolveFallback(a, rows, {}) == ByFallback(rows[byName.value].id);
        assert LeaveEmployee(a, rows) == Some(rows[byName.value]);
      } else {
        assert ResolveFallback(a, rows, {}) == NoRef;
        assert LeaveEmployee(a, rows) == None;
      }
    }
  }
}
