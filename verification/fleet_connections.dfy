/** Telling a dropped connection from a failed call (backend/fleet/connections.py). */
module FleetConnections {
  import opened Wrappers

  /** An exception: whether it is a connection or timeout error, the database's code and error it keeps, and its cause;
      "invalidated" is what a database error says of its connection. */
  datatype Failure = Failure(
    dropped: bool, sqlstate: Option<string>, orig: Option<Failure>, cause: Option<Failure>, invalidated: bool)

  function LostStates(): seq<string> { ["08", "57P01", "57P02", "57P03"] }

  /** A failure that says by itself that the connection went away. */
  predicate SaysLost(f: Failure) {
    f.dropped || (f.sqlstate.Some? && exists i :: 0 <= i < |LostStates()| && LostStates()[i] <= f.sqlstate.value)
  }

  /** Which codes those are: of class 08, an administrator's shutdown, a crash, or a server that cannot be connected to yet. */
  lemma SaysLostExactly(f: Failure)
    ensures SaysLost(f) <==>
            f.dropped || (f.sqlstate.Some? &&
                          var code := f.sqlstate.value; "08" <= code || "57P01" <= code || "57P02" <= code || "57P03" <= code)
  {
    var states := LostStates();
    assert states[0] == "08" && states[1] == "57P01" && states[2] == "57P02" && states[3] == "57P03";
  }

  /** The loop of connection_lost, with so many turns left. */
  predicate Found(pending: seq<Option<Failure>>, turns: nat)
    decreases turns
  {
    turns > 0 && pending != [] &&
    var item, rest := pending[|pending| - 1], pending[..|pending| - 1];
    if item.None? then Found(rest, turns - 1)
    else SaysLost(item.value) || Found(rest + [item.value.orig, item.value.cause], turns - 1)
  }

  predicate Lost(f: Failure) { f.invalidated || Found([Some(f)], 8) }

  /** connection_lost. */
  method ConnectionLost(f: Failure) returns (lost: bool)
    ensures lost == Lost(f)
  {
    if f.invalidated { return true; }
    var pending := [Some(f)];
    for turn := 0 to 8
      invariant Found([Some(f)], 8) == Found(pending, 8 - turn)
    {
      if pending == [] { return false; }
      var item := pending[|pending| - 1];
      pending := pending[..|pending| - 1];
      if item.Some? {
        if SaysLost(item.value) { return true; }
        pending := pending + [item.value.orig, item.value.cause];
      }
    }
    lost := false;
  }

  /** The failure itself, or one behind it, says so. */
  predicate LostBehind(f: Failure) {
    SaysLost(f) || (f.orig.Some? && LostBehind(f.orig.value)) || (f.cause.Some? && LostBehind(f.cause.value))
  }

  lemma {:induction false} FoundIsBehind(pending: seq<Option<Failure>>, turns: nat)
    requires Found(pending, turns)
    ensures exists i :: 0 <= i < |pending| && pending[i].Some? && LostBehind(pending[i].value)
    decreases turns
  {
    var n := |pending| - 1;
    var item, rest := pending[n], pending[..n];
    if item.None? {
      FoundIsBehind(rest, turns - 1);
      var i :| 0 <= i < |rest| && rest[i].Some? && LostBehind(rest[i].value);
      assert pending[i] == rest[i];
    } else if SaysLost(item.value) {
      assert LostBehind(pending[n].value);
    } else {
      var more := rest + [item.value.orig, item.value.cause];
      FoundIsBehind(more, turns - 1);
      var i :| 0 <= i < |more| && more[i].Some? && LostBehind(more[i].value);
      if i < n { assert pending[i] == more[i]; } else { assert LostBehind(pending[n].value); }
    }
  }

  /** A call is only repeated for a lost connection: some failure behind the one raised says so. */
  lemma LostIsBehind(f: Failure)
    requires Lost(f) && !f.invalidated
    ensures LostBehind(f)
  {
    FoundIsBehind([Some(f)], 8);
  }

  /** The failures the worklist takes, one after the other: one, all behind its cause, all behind what it keeps; a
      missing one takes a turn too. */
  function Visited(f: Option<Failure>): seq<Option<Failure>>
    decreases f
  {
    if f.None? then [f] else [f] + Visited(f.value.cause) + Visited(f.value.orig)
  }

  function AllVisited(pending: seq<Option<Failure>>): seq<Option<Failure>> {
    if pending == [] then [] else Visited(pending[|pending| - 1]) + AllVisited(pending[..|pending| - 1])
  }

  predicate SaysSo(f: Option<Failure>) { f.Some? && SaysLost(f.value) }

  /** One of the first few says so. */
  predicate AmongFirst(fs: seq<Option<Failure>>, turns: nat) { exists i :: 0 <= i < |fs| && i < turns && SaysSo(fs[i]) }

  lemma AmongNext(f: Option<Failure>, rest: seq<Option<Failure>>, turns: nat)
    requires turns > 0
    ensures AmongFirst([f] + rest, turns) <==> SaysSo(f) || AmongFirst(rest, turns - 1)
  {
    var fs := [f] + rest;
    if AmongFirst(fs, turns) && !SaysSo(f) {
      var i :| 0 <= i < |fs| && i < turns && SaysSo(fs[i]);
      assert rest[i - 1] == fs[i];
    }
    if AmongFirst(rest, turns - 1) {
      var i :| 0 <= i < |rest| && i < turns - 1 && SaysSo(rest[i]);
      assert fs[i + 1] == rest[i];
    }
    if SaysSo(f) { assert SaysSo(fs[0]); }
  }

  lemma BothBehind(rest: seq<Option<Failure>>, item: Option<Failure>)
    requires item.Some?
    ensures AllVisited(rest + [item]) == [item] + AllVisited(rest + [item.value.orig, item.value.cause])
  {
    var orig, cause := item.value.orig, item.value.cause;
    var more := rest + [orig, cause];
    assert (rest + [item])[..|rest|] == rest && (rest + [orig])[..|rest|] == rest;
    assert more[..|more| - 1] == rest + [orig];
    assert AllVisited(more) == Visited(cause) + AllVisited(rest + [orig]);
    assert AllVisited(rest + [orig]) == Visited(orig) + AllVisited(rest);
    assert AllVisited(rest + [item]) == Visited(item) + AllVisited(rest);
  }

  lemma AmongNone(fs: seq<Option<Failure>>, turns: nat)
    requires fs == [] || turns == 0
    ensures !AmongFirst(fs, turns)
  {}

  lemma {:induction false} FoundExactly(pending: seq<Option<Failure>>, turns: nat)
    ensures Found(pending, turns) <==> AmongFirst(AllVisited(pending), turns)
    decreases turns
  {
    hide SaysLost, AmongFirst;
    if turns == 0 || pending == [] {
      AmongNone(AllVisited(pending), turns);
    } else {
      var item, rest := pending[|pending| - 1], pending[..|pending| - 1];
      assert pending == rest + [item];
      if item.None? {
        FoundExactly(rest, turns - 1);
        AmongNext(item, AllVisited(rest), turns);
      } else {
        var more := rest + [item.value.orig, item.value.cause];
        FoundExactly(more, turns - 1);
        BothBehind(rest, item);
        AmongNext(item, AllVisited(more), turns);
      }
    }
  }

  /** connection_lost answers True exactly if the connection was invalidated or one of the first eight failures it
      takes, causes first, says so. */
  lemma LostExactly(f: Failure)
    ensures Lost(f) <==> f.invalidated || AmongFirst(Visited(Some(f)), 8)
  {
    hide AmongFirst, Found;
    FoundExactly([Some(f)], 8);
    var one := [Some(f)];
    assert one[..|one| - 1] == [] && AllVisited(one[..|one| - 1]) == [];
    assert AllVisited(one) == Visited(Some(f)) + [] == Visited(Some(f));
  }

  /** Some failure at most so many causes behind this one says so. */
  predicate Within(f: Failure, causes: nat) {
    SaysLost(f) || (causes > 0 && f.cause.Some? && Within(f.cause.value, causes - 1))
  }

  lemma {:induction false} CausesAreFound(pending: seq<Option<Failure>>, f: Failure, causes: nat, turns: nat)
    requires pending != [] && pending[|pending| - 1] == Some(f) && Within(f, causes) && causes < turns
    ensures Found(pending, turns)
    decreases turns
  {
    if !SaysLost(f) {
      CausesAreFound(pending[..|pending| - 1] + [f.orig, f.cause], f.cause.value, causes - 1, turns - 1);
    }
  }

  /** A lost connection is found up to seven causes deep, whatever else hangs on them. */
  lemma FoundSevenDeep(f: Failure)
    requires Within(f, 7)
    ensures Lost(f)
  {
    CausesAreFound([Some(f)], f, 7, 8);
  }
}
