/**
 The runtime that compiled choreography code runs against: an Env resolves the
 static role names of the function it was passed to into concrete role names,
 through a substitution table, and sends and receives through its transport under
 the resolved names.
 */
module Runtime {
  import opened Transports

  /**
   `role(name)` on a table: the entry for `name` when there is one and it is not
   the empty string (an empty entry is falsy and ignored), otherwise `name` itself.
   */
  function Lookup(table: map<Role, Role>, name: Role): (r: Role)
    ensures name in table && table[name] != "" ==> r == table[name]
    ensures name in table && table[name] == "" ==> r == name
    ensures name !in table ==> r == name
    ensures r == "" ==> name == ""
  {
    if name in table && table[name] != "" then table[name] else name
  }

  /**
   The table `subst(pairs)` builds: `pairs` alternates an old name and a new name,
   each new name is mapped to the caller's resolution of its old name, and a later
   pair for the same new name overwrites an earlier one.
   */
  function SubstTable(table: map<Role, Role>, pairs: seq<Role>): (sub: map<Role, Role>)
    requires |pairs| % 2 == 0
    decreases |pairs|
  {
    if pairs == [] then map[]
    else
      var n := |pairs|;
      SubstTable(table, pairs[..n - 2])[pairs[n - 1] := Lookup(table, pairs[n - 2])]
  }

  /** `roles.map(r => this.role(r))`: every role resolved, in the same order. */
  function MapRoles(table: map<Role, Role>, roles: seq<Role>): (r: seq<Role>)
    ensures |r| == |roles|
    ensures forall i :: 0 <= i < |roles| ==> r[i] == Lookup(table, roles[i])
  {
    if roles == [] then [] else [Lookup(table, roles[0])] + MapRoles(table, roles[1..])
  }

  /** The environment one process function runs in. */
  class Env<V> {
    const trans: Transport<V>
    var roleSubst: map<Role, Role>

    /** A root environment: nothing is substituted, every name resolves to itself. */
    constructor (transport: Transport<V>)
      ensures trans == transport && roleSubst == map[]
      ensures forall name :: Resolve(name) == name
    {
      trans := transport;
      roleSubst := map[];
    }

    /** `role(name)`: the table's non-empty entry for `name`, otherwise `name` itself. */
    function Resolve(name: Role): (r: Role)
      reads this
      ensures name in roleSubst && roleSubst[name] != "" ==> r == roleSubst[name]
      ensures !(name in roleSubst && roleSubst[name] != "") ==> r == name
    {
      Lookup(roleSubst, name)
    }

    /** Sends `value` to the resolved `roles` through exactly one transport call. */
    method Send(value: V, roles: seq<Role>)
      modifies trans.Repr()
      ensures trans.Calls() == old(trans.Calls()) + [SendCall(value, MapRoles(roleSubst, roles))]
      ensures trans.Pending() == old(trans.Pending())
      ensures trans.Traced? ==>
        trans.tracer.sends.records ==
          old(trans.tracer.sends.records) + [TraceMessage(value, trans.tracer.role, MapRoles(roleSubst, roles))]
      ensures trans.Traced? ==>
        trans.tracer.inner.calls == old(trans.tracer.inner.calls) + [SendCall(value, MapRoles(roleSubst, roles))]
    {
      var subRoles := MapRoles(roleSubst, roles);
      trans.Send(value, subRoles);
    }

    /** Receives from the resolved `from` through exactly one transport call, and returns its result. */
    method Recv(from: Role) returns (v: Option<V>)
      modifies trans.Repr()
      ensures trans.Calls() == old(trans.Calls()) + [RecvCall(Lookup(roleSubst, from))]
      ensures old(trans.Pending()) == [] ==> v == None && trans.Pending() == []
      ensures old(trans.Pending()) != [] ==> v == Some(old(trans.Pending())[0]) && trans.Pending() == old(trans.Pending())[1..]
      ensures trans.Traced? ==> trans.tracer.sends.records == old(trans.tracer.sends.records)
      ensures trans.Traced? ==> trans.tracer.inner.calls == old(trans.tracer.inner.calls) + [RecvCall(Lookup(roleSubst, from))]
    {
      var subRole := Resolve(from);
      v := trans.Recv(subRole);
    }

    /** A new Env on the same transport whose table is built from `pairs`; this one is unchanged. */
    method Subst(pairs: seq<Role>) returns (copy: Env<V>)
      requires |pairs| % 2 == 0
      ensures fresh(copy) && copy.trans == trans
      ensures copy.roleSubst == SubstTable(roleSubst, pairs)
      ensures unchanged(this)
    {
      var newSub: map<Role, Role> := map[];
      var i := 0;
      while i < |pairs|
        invariant 0 <= i <= |pairs| && i % 2 == 0
        invariant newSub == SubstTable(roleSubst, pairs[..i])
      {
        var oldRole := pairs[i];
        var newRole := pairs[i + 1];
        newSub := newSub[newRole := Resolve(oldRole)];
        assert pairs[..i + 2][..i] == pairs[..i];
        i := i + 2;
      }
      assert pairs[..i] == pairs;
      copy := new Env(trans);
      copy.roleSubst := newSub;
    }
  }

  /** `y` is the new name of some pair. */
  ghost predicate IsNewName(pairs: seq<Role>, y: Role) {
    exists k :: 0 <= k < |pairs| / 2 && pairs[2 * k + 1] == y
  }

  /** The table `subst` builds has exactly the new names as keys. */
  lemma {:induction false} SubstKeys(table: map<Role, Role>, pairs: seq<Role>, y: Role)
    requires |pairs| % 2 == 0
    ensures y in SubstTable(table, pairs) <==> IsNewName(pairs, y)
    decreases |pairs|
  {
    if pairs != [] {
      var n := |pairs|;
      var front := pairs[..n - 2];
      SubstKeys(table, front, y);
      if y in SubstTable(table, pairs) {
        if y == pairs[n - 1] {
          assert pairs[2 * (n / 2 - 1) + 1] == y;
        } else {
          var k :| 0 <= k < |front| / 2 && front[2 * k + 1] == y;
          assert pairs[2 * k + 1] == y;
        }
      }
      if IsNewName(pairs, y) {
        var k :| 0 <= k < |pairs| / 2 && pairs[2 * k + 1] == y;
        if k < |front| / 2 {
          assert front[2 * k + 1] == y;
        }
      }
    }
  }

  /** The last pair naming `pairs[2k+1]` decides its entry: it is the caller's resolution of `pairs[2k]`. */
  lemma {:induction false} SubstLastWins(table: map<Role, Role>, pairs: seq<Role>, k: nat)
    requires |pairs| % 2 == 0 && k < |pairs| / 2
    requires forall j :: k < j < |pairs| / 2 ==> pairs[2 * j + 1] != pairs[2 * k + 1]
    ensures pairs[2 * k + 1] in SubstTable(table, pairs)
    ensures SubstTable(table, pairs)[pairs[2 * k + 1]] == Lookup(table, pairs[2 * k])
    decreases |pairs|
  {
    var n := |pairs|;
    var front := pairs[..n - 2];
    if k < n / 2 - 1 {
      assert pairs[2 * (n / 2 - 1) + 1] != pairs[2 * k + 1];
      forall j | k < j < |front| / 2
        ensures front[2 * j + 1] != front[2 * k + 1]
      {
        assert front[2 * j + 1] == pairs[2 * j + 1];
      }
      SubstLastWins(table, front, k);
    }
  }

  /**
   After `subst`, the new name of the last pair that mentions it resolves exactly as
   the caller resolved the old name, provided that resolution is not empty.
   */
  lemma SubstResolves(table: map<Role, Role>, pairs: seq<Role>, k: nat)
    requires |pairs| % 2 == 0 && k < |pairs| / 2
    requires forall j :: k < j < |pairs| / 2 ==> pairs[2 * j + 1] != pairs[2 * k + 1]
    requires Lookup(table, pairs[2 * k]) != ""
    ensures Lookup(SubstTable(table, pairs), pairs[2 * k + 1]) == Lookup(table, pairs[2 * k])
  {
    SubstLastWins(table, pairs, k);
  }

  /** A name that is the new name of no pair resolves to itself after `subst`. */
  lemma SubstUnmentioned(table: map<Role, Role>, pairs: seq<Role>, y: Role)
    requires |pairs| % 2 == 0
    requires forall k :: 0 <= k < |pairs| / 2 ==> pairs[2 * k + 1] != y
    ensures y !in SubstTable(table, pairs)
    ensures Lookup(SubstTable(table, pairs), y) == y
  {
    SubstKeys(table, pairs, y);
  }

  /** `e.subst(a, x).subst(x, y).role(y) == e.role(a)`. */
  lemma SubstComposes(table: map<Role, Role>, a: Role, x: Role, y: Role)
    requires Lookup(table, a) != ""
    ensures Lookup(SubstTable(SubstTable(table, [a, x]), [x, y]), y) == Lookup(table, a)
  {
    SubstResolves(table, [a, x], 0);
    SubstResolves(SubstTable(table, [a, x]), [x, y], 0);
  }

  /** The table after renaming `names[0]` to `names[1]`, that to `names[2]`, and so on, one `subst` per step. */
  function ChainTable(table: map<Role, Role>, names: seq<Role>): (chained: map<Role, Role>)
    decreases |names|
  {
    if |names| < 2 then table else ChainTable(SubstTable(table, names[..2]), names[1..])
  }

  /** Substitution composes at any nesting depth: the last name resolves as the caller resolved the first. */
  lemma {:induction false} ChainResolves(table: map<Role, Role>, names: seq<Role>)
    requires |names| >= 1 && Lookup(table, names[0]) != ""
    ensures Lookup(ChainTable(table, names), names[|names| - 1]) == Lookup(table, names[0])
    decreases |names|
  {
    if |names| >= 2 {
      var next := SubstTable(table, names[..2]);
      SubstResolves(table, names[..2], 0);
      ChainResolves(next, names[1..]);
    }
  }

  /** The index after `i` among `m` roles, wrapping around to 0. */
  function NextIndex(i: nat, m: nat): (j: nat)
    requires i < m
    ensures j < m
  {
    if i + 1 < m then i + 1 else 0
  }

  /** The index `n` steps after `i` among `m` roles, wrapping around. */
  function Advance(i: nat, n: nat, m: nat): (j: nat)
    requires i < m
    ensures j < m
    decreases n
  {
    if n == 0 then i else Advance(NextIndex(i, m), n - 1, m)
  }

  /**
   The pairs of a call that passes every static role `rs[i]` the caller's next role
   (cyclically): `pingPong@(B,A)` for two roles, `shiftRoles@(B,C,D,A)` for four.
   */
  function RotatePairs(rs: seq<Role>): (pairs: seq<Role>)
    requires |rs| > 0
    ensures |pairs| % 2 == 0 && |pairs| / 2 == |rs|
    ensures forall i :: 0 <= i < |rs| ==> pairs[2 * i] == rs[NextIndex(i, |rs|)] && pairs[2 * i + 1] == rs[i]
  {
    seq(2 * |rs|, j requires 0 <= j < 2 * |rs| => if j % 2 == 0 then rs[NextIndex(j / 2, |rs|)] else rs[j / 2])
  }

  ghost predicate Distinct(rs: seq<Role>) {
    forall i, j :: 0 <= i < j < |rs| ==> rs[i] != rs[j]
  }

  /** The table after `n` nested rotating calls. */
  function RotateTable(table: map<Role, Role>, rs: seq<Role>, n: nat): (rotated: map<Role, Role>)
    requires |rs| > 0
  {
    if n == 0 then table else SubstTable(RotateTable(table, rs, n - 1), RotatePairs(rs))
  }

  /** After one more rotating call, static role `rs[i]` resolves as the caller resolved the next role. */
  lemma RotateStep(table: map<Role, Role>, rs: seq<Role>, n: nat, i: nat)
    requires |rs| > 0 && Distinct(rs) && i < |rs|
    requires Lookup(RotateTable(table, rs, n), rs[NextIndex(i, |rs|)]) != ""
    ensures Lookup(RotateTable(table, rs, n + 1), rs[i]) == Lookup(RotateTable(table, rs, n), rs[NextIndex(i, |rs|)])
  {
    var pairs := RotatePairs(rs);
    forall j | i < j < |pairs| / 2
      ensures pairs[2 * j + 1] != pairs[2 * i + 1]
    {
      assert pairs[2 * j + 1] == rs[j];
    }
    SubstResolves(RotateTable(table, rs, n), pairs, i);
  }

  /**
   After `n` nested rotating calls static role `rs[i]` resolves to what the outermost
   caller called the role `n` steps after it: names always resolve to the concrete
   roles of the outermost call, never to a placeholder.
   */
  lemma {:induction false} RotateResolves(table: map<Role, Role>, rs: seq<Role>, n: nat, i: nat)
    requires |rs| > 0 && Distinct(rs) && i < |rs|
    requires forall j :: 0 <= j < |rs| ==> Lookup(table, rs[j]) != ""
    ensures Lookup(RotateTable(table, rs, n), rs[i]) == Lookup(table, rs[Advance(i, n, |rs|)])
    decreases n, 0
  {
    if n > 0 {
      RotateResolvesNext(table, rs, n - 1, i);
    }
  }

  /** The inductive step of `RotateResolves`: one more rotating call. */
  lemma {:induction false} RotateResolvesNext(table: map<Role, Role>, rs: seq<Role>, n: nat, i: nat)
    requires |rs| > 0 && Distinct(rs) && i < |rs|
    requires forall j :: 0 <= j < |rs| ==> Lookup(table, rs[j]) != ""
    ensures Lookup(RotateTable(table, rs, n + 1), rs[i]) == Lookup(table, rs[Advance(i, n + 1, |rs|)])
    decreases n, 1
  {
    RotateResolves(table, rs, n, NextIndex(i, |rs|));
    RotateStep(table, rs, n, i);
  }

  /** Advancing without wrapping around just adds. */
  lemma {:induction false} AdvanceNoWrap(i: nat, n: nat, m: nat)
    requires i + n < m
    ensures Advance(i, n, m) == i + n
    decreases n
  {
    if n > 0 {
      AdvanceNoWrap(i + 1, n - 1, m);
    }
  }

  /** Advancing `a` steps and then `b` more is advancing `a + b` steps. */
  lemma {:induction false} AdvanceAdd(i: nat, a: nat, b: nat, m: nat)
    requires i < m
    ensures Advance(Advance(i, a, m), b, m) == Advance(i, a + b, m)
    decreases a
  {
    if a > 0 {
      AdvanceAdd(NextIndex(i, m), a - 1, b, m);
    }
  }

  /** Advancing once per role comes back to the start. */
  lemma AdvanceFullCircle(i: nat, m: nat)
    requires i < m
    ensures Advance(i, m, m) == i
  {
    AdvanceNoWrap(i, m - 1 - i, m);
    AdvanceAdd(i, m - 1 - i, 1, m);
    assert Advance(i, m - i, m) == 0;
    AdvanceNoWrap(0, i, m);
    AdvanceAdd(i, m - i, i, m);
  }

  /**
   After as many nested rotating calls as there are roles (`shiftRoles@(B,C,D,A)` four
   times, `pingPong@(B,A)` twice), every static role resolves as it did at the outermost call.
   */
  lemma RotateFullCircle(table: map<Role, Role>, rs: seq<Role>, i: nat)
    requires |rs| > 0 && Distinct(rs) && i < |rs|
    requires forall j :: 0 <= j < |rs| ==> Lookup(table, rs[j]) != ""
    ensures Lookup(RotateTable(table, rs, |rs|), rs[i]) == Lookup(table, rs[i])
  {
    RotateResolves(table, rs, |rs|, i);
    AdvanceFullCircle(i, |rs|);
  }

  /** Between two roles, advancing `n` steps flips the index `n` times. */
  lemma {:induction false} AdvanceTwo(i: nat, n: nat)
    requires i < 2
    ensures Advance(i, n, 2) == (i + n) % 2
    decreases n
  {
    if n > 0 {
      AdvanceTwo(NextIndex(i, 2), n - 1);
    }
  }

  /**
   Ping-pong: after `n` recursive calls `pingPong@(B,A)`, static `A` (`rs[0]`) and `B`
   (`rs[1]`) have traded places `n` times: each resolves as the outermost caller
   resolved itself when `n` is even, and as it resolved the other one when `n` is odd.
   */
  lemma PingPongResolves(table: map<Role, Role>, rs: seq<Role>, n: nat, i: nat)
    requires |rs| == 2 && Distinct(rs) && i < 2
    requires Lookup(table, rs[0]) != "" && Lookup(table, rs[1]) != ""
    ensures Lookup(RotateTable(table, rs, n), rs[i]) == Lookup(table, rs[(i + n) % 2])
  {
    RotateResolves(table, rs, n, i);
    AdvanceTwo(i, n);
  }
}
