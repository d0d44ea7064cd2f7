// What the state table held at some moment of a run: its answers may be used later.
module StateHistory {
  import opened RequestPath

  ghost predicate HeldThen(n: Node, actions: seq<Action>, q: nat, row: Row, m: nat) {
    m <= |actions| && q < |Run(n, actions[..m]).table| && row == Run(n, actions[..m]).table[q]
  }

  // QP q's row was this one after some of the actions.
  ghost predicate Held(n: Node, actions: seq<Action>, q: nat, row: Row) {
    exists m: nat :: HeldThen(n, actions, q, row, m)
  }

  lemma HeldLater(n: Node, actions: seq<Action>, a: Action, q: nat, row: Row)
    requires Held(n, actions, q, row)
    ensures Held(n, actions + [a], q, row)
  {
    var m: nat :| HeldThen(n, actions, q, row, m);
    assert (actions + [a])[..m] == actions[..m];
    assert HeldThen(n, actions + [a], q, row, m);
  }

  lemma HeldNow(n: Node, actions: seq<Action>, a: Action, q: nat)
    requires q < |Run(n, actions).table|
    ensures Held(n, actions + [a], q, Run(n, actions).table[q])
  {
    hide Next;
    assert (actions + [a])[..|actions|] == actions;
    assert HeldThen(n, actions + [a], q, Run(n, actions).table[q], |actions|);
  }
}
