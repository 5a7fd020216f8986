/**
 * The project action that offers bulk export: which selected project
 * members it applies to, and the list of component files it hands to the
 * export dialog.
 */
module BulkExport {
  import opened Wrappers

  /**
   * A project member: its name, whether the host's extension test accepts
   * it as a component file (extension "eon"), and its children in project
   * order.
   */
  datatype Member = Member(name: string, isEon: bool, children: seq<Member>)

  predicate HasChildren(m: Member) {
    |m.children| > 0
  }

  /** The component files among the first n children, in child order. */
  function EonMembers(kids: seq<Member>, n: nat): seq<Member>
    requires n <= |kids|
  {
    if n == 0 then []
    else EonMembers(kids, n - 1) + if kids[n - 1].isEon then [kids[n - 1]] else []
  }

  /**
   * What buildList collects for one selected member: the component files
   * among its direct children when it has children, else the member itself
   * when it is a component file.
   */
  function Contribution(m: Member): seq<Member> {
    if HasChildren(m) then EonMembers(m.children, |m.children|)
    else if m.isEon then [m]
    else []
  }

  /** What buildList has collected once it has looked at the first n selected members. */
  function Collected(ms: seq<Member>, n: nat): seq<Member>
    requires n <= |ms|
  {
    if n == 0 then []
    else Collected(ms, n - 1) + Contribution(ms[n - 1])
  }

  /** Everything buildList collects for a selection, in selection order. */
  function Suitable(ms: seq<Member>): seq<Member> {
    Collected(ms, |ms|)
  }

  /** One more child looked at. */
  lemma EonMembersNext(kids: seq<Member>, j: nat)
    requires j < |kids|
    ensures EonMembers(kids, j + 1) == EonMembers(kids, j) + if kids[j].isEon then [kids[j]] else []
  {
  }

  /** Selected member i is a component file without children. */
  predicate EonLeafAt(ms: seq<Member>, i: int) {
    0 <= i < |ms| && !HasChildren(ms[i]) && ms[i].isEon
  }

  /** Child j of selected member i is a component file. */
  predicate EonChildAt(ms: seq<Member>, i: int, j: int) {
    0 <= i < |ms| && 0 <= j < |ms[i].children| && ms[i].children[j].isEon
  }

  /**
   * The action applies to a selection exactly when some selected member is a
   * component file without children, or has a component file among its
   * direct children.
   */
  ghost predicate Applies(ms: seq<Member>) {
    (exists i :: EonLeafAt(ms, i)) || (exists i, j :: EonChildAt(ms, i, j))
  }

  /** The list buildList appends to. */
  class MemberList {
    var items: seq<Member>

    constructor()
      ensures items == []
    {
      items := [];
    }

    method Add(m: Member)
      modifies this
      ensures items == old(items) + [m]
    {
      items := items + [m];
    }
  }

  /**
   * buildList: with a list, appends everything the selection contributes
   * and keeps what the list held before; without one, stops at the first
   * component file. Either way the answer is whether the action applies.
   */
  method BuildList(members: seq<Member>, suitable: MemberList?) returns (found: bool)
    modifies suitable
    ensures found == (|Suitable(members)| > 0)
    ensures suitable != null ==> suitable.items == old(suitable.items) + Suitable(members)
  {
    ghost var start := if suitable == null then [] else suitable.items;
    ghost var got: seq<Member> := [];
    var matches := 0;
    var i := 0;
    while i < |members|
      invariant 0 <= i <= |members|
      invariant got == Collected(members, i)
      invariant Tally(suitable, start, matches, got)
    {
      var m := members[i];
      if HasChildren(m) {
        var added := CollectChildren(m.children, suitable);
        matches := matches + added;
        if suitable == null && added > 0 {
          FoundAt(members, i);
          break;
        }
      } else if m.isEon {
        matches := matches + 1;
        if suitable == null {
          FoundAt(members, i);
          break;
        }
        suitable.Add(m);
      }
      AppendAssoc(start, got, Contribution(m));
      got := got + Contribution(m);
      i := i + 1;
    }
    found := matches > 0;
  }

  /**
   * The inner loop of buildList, over the children of one selected member:
   * with a list, appends the component files among them and counts them;
   * without one, stops at the first component file, counting one match.
   */
  method CollectChildren(kids: seq<Member>, suitable: MemberList?) returns (matches: nat)
    modifies suitable
    ensures suitable != null ==> suitable.items == old(suitable.items) + EonMembers(kids, |kids|)
    ensures suitable != null ==> matches == |EonMembers(kids, |kids|)|
    ensures suitable == null ==> matches == if |EonMembers(kids, |kids|)| > 0 then 1 else 0
  {
    ghost var start := if suitable == null then [] else suitable.items;
    ghost var added: seq<Member> := [];
    matches := 0;
    var j := 0;
    while j < |kids|
      invariant 0 <= j <= |kids|
      invariant added == EonMembers(kids, j)
      invariant Tally(suitable, start, matches, added)
    {
      var kid := kids[j];
      EonMembersNext(kids, j);
      if kid.isEon {
        matches := matches + 1;
        if suitable == null {
          EonMembersComplete(kids, |kids|, j);
          return;
        }
        suitable.Add(kid);
        AppendAssoc(start, added, [kid]);
        added := added + [kid];
      }
      j := j + 1;
    }
  }

  /** Something contributed by a selected member means something is collected. */
  lemma FoundAt(ms: seq<Member>, i: nat)
    requires i < |ms| && |Contribution(ms[i])| > 0
    ensures |Suitable(ms)| > 0
  {
    var m := ms[i];
    if HasChildren(m) {
      EonMembersSound(m.children, |m.children|, Contribution(m)[0]);
      var j :| 0 <= j < |m.children| && m.children[j] == Contribution(m)[0];
      ChildCollected(ms, i, j);
    } else {
      LeafCollected(ms, i);
    }
  }

  /** Appending is associative. */
  lemma AppendAssoc<T>(a: seq<T>, b: seq<T>, c: seq<T>)
    ensures (a + b) + c == a + (b + c)
  {
  }

  /**
   * The bookkeeping of buildList: `matches` counts what has been collected;
   * with a list, that is appended to what the list held; without one,
   * nothing has been found yet.
   */
  ghost predicate Tally(suitable: MemberList?, start: seq<Member>, matches: int, got: seq<Member>)
    reads suitable
  {
    && matches == |got|
    && (suitable != null ==> suitable.items == start + got)
    && (suitable == null ==> matches == 0)
  }

  /** appliesToSelection: buildList without a list. */
  method AppliesToSelection(members: seq<Member>) returns (r: bool)
    ensures r == Applies(members)
  {
    r := BuildList(members, null);
    AppliesIffNonEmpty(members);
  }

  /**
   * performOnSelection: collects the selection into a fresh list and opens
   * the export dialog on it when it is not empty; the action always reports
   * that it handled the selection. The dialog opened, if any, is returned.
   */
  method PerformOnSelection(members: seq<Member>) returns (handled: bool, dialog: Option<seq<Member>>)
    ensures handled
    ensures dialog.Some? <==> Applies(members)
    ensures dialog.Some? ==> dialog.value == Suitable(members)
  {
    var exportList := new MemberList();
    var _ := BuildList(members, exportList);
    AppliesIffNonEmpty(members);
    dialog := if |exportList.items| > 0 then Some(exportList.items) else None;
    handled := true;
  }

  /**
   * appliesTo for the member a project view reports: the host first
   * simplifies that member (the project, a task or a member itself), and the
   * simplified member is given here.
   */
  method AppliesTo(simplified: Member) returns (r: bool)
    ensures r == Applies([simplified])
  {
    r := AppliesToSelection([simplified]);
  }

  /** perform for the member a project view reports, simplified by the host as for AppliesTo. */
  method Perform(simplified: Member) returns (handled: bool, dialog: Option<seq<Member>>)
    ensures handled
    ensures dialog.Some? <==> Applies([simplified])
    ensures dialog.Some? ==> dialog.value == Contribution(simplified)
  {
    handled, dialog := PerformOnSelection([simplified]);
    calc {
      Suitable([simplified]);
      Collected([simplified], 0) + Contribution([simplified][0]);
      [] + Contribution(simplified);
      Contribution(simplified);
    }
  }

  /** A component file among the first n children is collected. */
  lemma {:induction false} EonMembersComplete(kids: seq<Member>, n: nat, j: nat)
    requires j < n <= |kids| && kids[j].isEon
    ensures kids[j] in EonMembers(kids, n)
  {
    if j < n - 1 {
      EonMembersComplete(kids, n - 1, j);
    }
  }

  /** Everything collected from the first n children is one of them and a component file. */
  lemma {:induction false} EonMembersSound(kids: seq<Member>, n: nat, x: Member)
    requires n <= |kids| && x in EonMembers(kids, n)
    ensures x.isEon && exists j :: 0 <= j < n && kids[j] == x
  {
    if x in EonMembers(kids, n - 1) {
      EonMembersSound(kids, n - 1, x);
    } else {
      assert kids[n - 1] == x;
    }
  }

  /**
   * Everything collected from the first n selected members is a component
   * file that is either one of them without children or a direct child of
   * one of them with children.
   */
  lemma {:induction false} CollectedSound(ms: seq<Member>, n: nat, x: Member)
    requires n <= |ms| && x in Collected(ms, n)
    ensures x.isEon
    ensures (exists i :: EonLeafAt(ms, i) && i < n && ms[i] == x)
            || (exists i, j :: EonChildAt(ms, i, j) && i < n && HasChildren(ms[i]) && ms[i].children[j] == x)
  {
    var m := ms[n - 1];
    if x in Collected(ms, n - 1) {
      CollectedSound(ms, n - 1, x);
    } else if HasChildren(m) {
      EonMembersSound(m.children, |m.children|, x);
      var j :| 0 <= j < |m.children| && m.children[j] == x;
      assert EonChildAt(ms, n - 1, j);
    } else {
      assert EonLeafAt(ms, n - 1);
    }
  }

  /** What the first n - 1 selected members contribute stays collected after member n. */
  lemma CollectedKeeps(ms: seq<Member>, n: nat, x: Member)
    requires 0 < n <= |ms| && x in Collected(ms, n - 1)
    ensures x in Collected(ms, n)
  {
  }

  /** What selected member n - 1 contributes is collected from the first n. */
  lemma CollectedTakes(ms: seq<Member>, n: nat, x: Member)
    requires 0 < n <= |ms| && x in Contribution(ms[n - 1])
    ensures x in Collected(ms, n)
  {
  }

  /** What is collected from the first k selected members stays collected from the first n. */
  lemma {:induction false} CollectedStays(ms: seq<Member>, k: nat, n: nat, x: Member)
    requires k <= n <= |ms| && x in Collected(ms, k)
    ensures x in Collected(ms, n)
  {
    if k < n {
      CollectedStays(ms, k, n - 1, x);
      CollectedKeeps(ms, n, x);
    }
  }

  /** What any of the first n selected members contributes is collected from them. */
  lemma ContributionCollected(ms: seq<Member>, n: nat, i: nat, x: Member)
    requires i < n <= |ms| && x in Contribution(ms[i])
    ensures x in Collected(ms, n)
  {
    CollectedTakes(ms, i + 1, x);
    CollectedStays(ms, i + 1, n, x);
  }

  /** A selected component file without children is collected. */
  lemma LeafCollected(ms: seq<Member>, i: nat)
    requires EonLeafAt(ms, i)
    ensures ms[i] in Suitable(ms)
  {
    assert Contribution(ms[i]) == [ms[i]];
    ContributionCollected(ms, |ms|, i, ms[i]);
  }

  /** A component file directly under a selected member is collected. */
  lemma ChildCollected(ms: seq<Member>, i: nat, j: nat)
    requires EonChildAt(ms, i, j)
    ensures ms[i].children[j] in Suitable(ms)
  {
    EonMembersComplete(ms[i].children, |ms[i].children|, j);
    ContributionCollected(ms, |ms|, i, ms[i].children[j]);
  }

  /**
   * Whether buildList finds something agrees with whether it collects
   * something: the early-stopping mode and the collecting mode give the same
   * answer.
   */
  lemma AppliesIffNonEmpty(ms: seq<Member>)
    ensures Applies(ms) <==> |Suitable(ms)| > 0
  {
    if exists i :: EonLeafAt(ms, i) {
      var i :| EonLeafAt(ms, i);
      LeafCollected(ms, i);
    } else if exists i, j :: EonChildAt(ms, i, j) {
      var i, j :| EonChildAt(ms, i, j);
      ChildCollected(ms, i, j);
    }
    if |Suitable(ms)| > 0 {
      CollectedSound(ms, |ms|, Suitable(ms)[0]);
    }
  }

  /**
   * Only one level is examined: a selected member with children is collected
   * only as a component-file child of another selected member, never for
   * itself.
   */
  lemma ParentNotCollected(ms: seq<Member>, i: nat)
    requires i < |ms| && HasChildren(ms[i]) && ms[i] in Suitable(ms)
    ensures exists k, j :: EonChildAt(ms, k, j) && k != i && ms[k].children[j] == ms[i]
  {
    CollectedSound(ms, |ms|, ms[i]);
  }

  /** What is collected from the first n members depends on those members only. */
  lemma {:induction false} CollectedAgree(a: seq<Member>, b: seq<Member>, n: nat)
    requires n <= |a| && n <= |b|
    requires forall k :: 0 <= k < n ==> a[k] == b[k]
    ensures Collected(a, n) == Collected(b, n)
  {
    if n > 0 {
      CollectedAgree(a, b, n - 1);
    }
  }

  /** Member |a| + n - 1 of a + b is member n - 1 of b. */
  lemma ConcatStep(a: seq<Member>, b: seq<Member>, n: nat)
    requires 0 < n <= |b|
    ensures Collected(a + b, |a| + n) == Collected(a + b, |a| + n - 1) + Contribution(b[n - 1])
  {
    assert (a + b)[|a| + n - 1] == b[n - 1];
  }

  /** Collecting past a first selection a collects from the rest b, appended. */
  lemma {:induction false} CollectedConcat(a: seq<Member>, b: seq<Member>, n: nat)
    requires n <= |b|
    ensures Collected(a + b, |a| + n) == Suitable(a) + Collected(b, n)
  {
    if n == 0 {
      CollectedAgree(a + b, a, |a|);
    } else {
      CollectedConcat(a, b, n - 1);
      ConcatStep(a, b, n);
      AppendAssoc(Suitable(a), Collected(b, n - 1), Contribution(b[n - 1]));
    }
  }

  /** The list follows selection order: collecting two selections in turn is collecting them joined. */
  lemma SuitableConcat(a: seq<Member>, b: seq<Member>)
    ensures Suitable(a + b) == Suitable(a) + Suitable(b)
  {
    CollectedConcat(a, b, |b|);
  }
}
