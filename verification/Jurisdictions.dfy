/** Hierarchy resolution of the compliance engine: closing a request under "parent". */
module Jurisdictions {
  import opened Common

  type Id = string

  datatype Jurisdiction = Jurisdiction(name: string, parentId: Option<Id>)
  type JurisdictionTable = map<Id, Jurisdiction>

  /** The parent link of an id. Unknown ids and roots have none; a link may dangle or close a cycle. */
  function Parent(table: JurisdictionTable, id: Id): Option<Id> {
    if id in table then table[id].parentId else None
  }

  function ParentIds(table: JurisdictionTable): set<Id> {
    set id | id in table && table[id].parentId.Some? :: table[id].parentId.value
  }

  lemma ParentIsListed(table: JurisdictionTable, id: Id)
    requires Parent(table, id).Some?
    ensures Parent(table, id).value in ParentIds(table)
  {
    assert id in table && table[id].parentId.Some?;
  }

  ghost predicate Closed(table: JurisdictionTable, s: set<Id>) {
    forall id :: id in s && Parent(table, id).Some? ==> Parent(table, id).value in s
  }

  /** The least superset of `s` that is closed under parent. */
  ghost function Closure(table: JurisdictionTable, s: set<Id>): (c: set<Id>)
    ensures s <= c && Closed(table, c)
    ensures forall d :: s <= d && Closed(table, d) ==> c <= d
    decreases |ParentIds(table) - s|
  {
    if Closed(table, s) then s else
    var id :| id in s && Parent(table, id).Some? && Parent(table, id).value !in s;
    var p := Parent(table, id).value;
    ParentIsListed(table, id);
    assert ParentIds(table) - (s + {p}) == (ParentIds(table) - s) - {p};
    Closure(table, s + {p})
  }

  /** `resolveJurisdictionHierarchy`: a work list over parent links. It ends on every table. */
  method ResolveJurisdictionHierarchy(jurisdictionIds: seq<Id>, table: JurisdictionTable) returns (resolved: set<Id>)
    ensures resolved == Closure(table, Elements(jurisdictionIds))
  {
    resolved := Elements(jurisdictionIds);
    var queue := jurisdictionIds;
    ghost var target := Closure(table, Elements(jurisdictionIds));
    while queue != []
      invariant Elements(jurisdictionIds) <= resolved <= target
      invariant forall x :: x in queue ==> x in resolved
      invariant forall x :: x in resolved && x !in queue && Parent(table, x).Some? ==> Parent(table, x).value in resolved
      decreases |ParentIds(table) - resolved|, |queue|
    {
      var id := queue[0];
      queue := queue[1..];
      var parent := Parent(table, id);
      if parent.Some? && parent.value !in resolved {
        ParentIsListed(table, id);
        assert ParentIds(table) - (resolved + {parent.value}) == (ParentIds(table) - resolved) - {parent.value};
        resolved := resolved + {parent.value};
        queue := queue + [parent.value];
      }
    }
    assert Closed(table, resolved);
  }

  /** What is resolved contains the request and the parent of every resolved id that the table gives one, and nothing that
      this does not force. */
  lemma HierarchyMeans(table: JurisdictionTable, s: set<Id>)
    ensures var resolved := Closure(table, s);
      && s <= resolved
      && (forall id :: id in resolved && id in table && table[id].parentId.Some? ==> table[id].parentId.value in resolved)
      && forall other :: s <= other && (forall id :: id in other && id in table && table[id].parentId.Some? ==> table[id].parentId.value in other) ==>
           resolved <= other
  {
    forall id | id in Closure(table, s) && id in table && table[id].parentId.Some?
      ensures table[id].parentId.value in Closure(table, s)
    {
      assert Parent(table, id) == table[id].parentId;
    }
    forall other | s <= other && forall id :: id in other && id in table && table[id].parentId.Some? ==> table[id].parentId.value in other
      ensures Closure(table, s) <= other
    {
      assert Closed(table, other);
    }
  }

  /** The n-th ancestor, when the chain of links is that long. */
  function Ancestor(table: JurisdictionTable, id: Id, n: nat): Option<Id> {
    if n == 0 then Some(id) else
    var a := Ancestor(table, id, n - 1);
    if a.None? then None else Parent(table, a.value)
  }

  lemma {:induction false} AncestorInClosed(table: JurisdictionTable, s: set<Id>, id: Id, n: nat)
    requires id in s && Closed(table, s)
    ensures Ancestor(table, id, n).Some? ==> Ancestor(table, id, n).value in s
  {
    if n > 0 {
      AncestorInClosed(table, s, id, n - 1);
    }
  }

  ghost predicate HasAncestor(table: JurisdictionTable, id: Id, x: Id) {
    exists n: nat :: Ancestor(table, id, n) == Some(x)
  }

  /** Everything some member of `s` has as an ancestor. */
  ghost function Ancestors(table: JurisdictionTable, s: set<Id>): set<Id> {
    set id, y | id in s && y in s + ParentIds(table) && HasAncestor(table, id, y) :: y
  }

  lemma AncestorsAreClosed(table: JurisdictionTable, s: set<Id>)
    ensures s <= Ancestors(table, s) && Closed(table, Ancestors(table, s))
  {
    var all := Ancestors(table, s);
    forall y | y in s
      ensures y in all
    {
      assert Ancestor(table, y, 0) == Some(y);
      assert HasAncestor(table, y, y);
    }
    forall y | y in all && Parent(table, y).Some?
      ensures Parent(table, y).value in all
    {
      var id :| id in s && HasAncestor(table, id, y);
      var n: nat :| Ancestor(table, id, n) == Some(y);
      ParentIsListed(table, y);
      assert Ancestor(table, id, n + 1) == Parent(table, y);
      assert HasAncestor(table, id, Parent(table, y).value);
    }
  }

  /** The resolved set is exactly the requested ids and their ancestors, cycles and dangling links included. */
  lemma ClosureIsAncestors(table: JurisdictionTable, s: set<Id>, x: Id)
    ensures x in Closure(table, s) <==> exists id :: id in s && HasAncestor(table, id, x)
  {
    AncestorsAreClosed(table, s);
    if id :| id in s && HasAncestor(table, id, x) {
      var n: nat :| Ancestor(table, id, n) == Some(x);
      AncestorInClosed(table, Closure(table, s), id, n);
    }
  }

  lemma ClosureMonotone(table: JurisdictionTable, s: set<Id>, t: set<Id>)
    requires s <= Closure(table, t)
    ensures Closure(table, s) <= Closure(table, t)
  {
  }

  /** Closing the parts and joining them closes the whole. */
  lemma ClosureOfUnion(table: JurisdictionTable, s: set<Id>, t: set<Id>)
    ensures Closure(table, Closure(table, s) + t) == Closure(table, s + t)
    ensures Closure(table, s) + Closure(table, t) == Closure(table, s + t)
  {
    var joined := Closure(table, s) + Closure(table, t);
    assert Closed(table, joined);
    assert s + t <= joined;
    assert s <= s + t && t <= s + t;
    ClosureMonotone(table, s, s + t);
    ClosureMonotone(table, t, s + t);
    ClosureMonotone(table, s + t, Closure(table, s) + t);
    ClosureMonotone(table, Closure(table, s) + t, s + t);
  }
}
