/** One transition of the mock: named state values, the updates an operation
    makes to them, and the result it reports. */
module MockState {
  import opened Wrappers
  import opened Collections
  import opened JsonDiff
  import opened MockNames

  type State = map<StateName, Json>

  /** The calls of `_Transition.increment` and `_Transition.set` that a call
      makes.  It increments nothing twice and sets nothing it increments, so the
      order of these updates makes no difference. */
  datatype Changes = Changes(bumped: set<StateName>, settled: map<StateName, Json>)

  function Quiet(): Changes { Changes({}, map[]) }

  function Bumps(names: set<StateName>): Changes { Changes(names, map[]) }

  /** What an operation does when none of its updates fails: what looking up the
      purpose of a Grant has counted, and what the operation then changes.
      `Raise` is an exception: there is no result and no new state. */
  datatype Plan =
    | Raise
    | Plan(looked: set<StateName>, changes: Changes, decision: Decision, tokens: seq<Token>,
           error: Option<AspError>, policyReason: Option<Reason>, matchReason: Option<Reason>)

  datatype Outcome = Outcome(decision: Decision, tokens: seq<Token>, before: State, after: State,
                             error: Option<AspError>, policyReason: Option<Reason>, matchReason: Option<Reason>)

  function Total(p: Plan): Changes
    requires p.Plan?
  {
    Changes(p.looked + p.changes.bumped, p.changes.settled)
  }

  /** Booleans are not counters. */
  predicate Countable(st: State, n: StateName) { n in st && st[n].JInt? }

  /** Neither update of any name raises. */
  predicate Possible(st: State, c: Changes) {
    (forall n :: n in c.bumped ==> Countable(st, n)) && c.settled.Keys <= st.Keys
  }

  function After(st: State, c: Changes): State
    requires Possible(st, c)
  {
    map n | n in st ::
      if n in c.settled then c.settled[n] else if n in c.bumped then JInt(st[n].i + 1) else st[n]
  }

  /** The check `_Transition.result` makes: some tokens, all different. */
  predicate Reportable(tokens: seq<Token>) { tokens != [] && Distinct(tokens) }

  function Perform(plan: Plan, st: State): Option<Outcome> {
    match plan
    case Raise => None
    case Plan(_, _, decision, tokens, error, policyReason, matchReason) =>
      if Possible(st, Total(plan)) && Reportable(tokens)
      then Some(Outcome(decision, tokens, st, After(st, Total(plan)), error, policyReason, matchReason))
      else None
  }

  class Transition {
    const before: State
    var after: State

    constructor (before: State)
      ensures this.before == before && after == before
    {
      this.before := before;
      this.after := before;
    }

    method Set(name: StateName, value: Json) returns (ok: bool)
      modifies this
      ensures ok <==> name in old(after)
      ensures after == if ok then old(after)[name := value] else old(after)
    {
      ok := name in after;
      if ok {
        after := after[name := value];
      }
    }

    method Bump(name: StateName) returns (ok: bool)
      modifies this
      ensures ok <==> Countable(old(after), name)
      ensures after == if ok then old(after)[name := JInt(old(after)[name].i + 1)] else old(after)
    {
      ok := name in after && after[name].JInt?;
      if ok {
        after := after[name := JInt(after[name].i + 1)];
      }
    }

    /** The loop over the names to increment, in whatever order. */
    method BumpAll(names: set<StateName>) returns (ok: bool)
      modifies this
      ensures ok <==> Possible(old(after), Bumps(names))
      ensures ok ==> after == After(old(after), Bumps(names))
    {
      var rest := names;
      while rest != {}
        invariant rest <= names && Possible(old(after), Bumps(names - rest))
        invariant after == After(old(after), Bumps(names - rest))
        decreases rest
      {
        var n :| n in rest;
        ok := Bump(n);
        if !ok {
          return;
        }
        rest := rest - {n};
      }
      assert names - rest == names;
      return true;
    }

    /** The loop over the values to set. */
    method SetAll(values: map<StateName, Json>) returns (ok: bool)
      modifies this
      ensures ok <==> values.Keys <= old(after).Keys
      ensures ok ==> after == After(old(after), Changes({}, values))
    {
      var rest := values.Keys;
      while rest != {}
        invariant rest <= values.Keys && values.Keys - rest <= old(after).Keys == after.Keys
        invariant forall n :: n in after ==>
                                after[n] == if n in values && n !in rest then values[n] else old(after)[n]
        decreases rest
      {
        var n :| n in rest;
        ok := Set(n, values[n]);
        if !ok {
          return;
        }
        rest := rest - {n};
      }
      return true;
    }

    method Run(plan: Plan) returns (r: Option<Outcome>)
      requires after == before
      requires plan.Plan? ==> Total(plan).bumped !! plan.changes.settled.Keys
      modifies this
      ensures r == Perform(plan, before)
    {
      if plan.Raise? {
        return None;
      }
      var ok := BumpAll(Total(plan).bumped);
      if !ok {
        return None;
      }
      ok := SetAll(plan.changes.settled);
      if !ok || !Reportable(plan.tokens) {
        return None;
      }
      assert after == After(before, Total(plan));
      return Some(Outcome(plan.decision, plan.tokens, before, after, plan.error, plan.policyReason, plan.matchReason));
    }
  }

  // ----- reading the initial state -----

  datatype Item = Item(name: string, value: Json)

  function Collect(items: seq<Item>): Option<State> {
    if items == [] then Some(map[])
    else
      var n := |items| - 1;
      match Collect(items[..n])
      case None => None
      case Some(st) =>
        if items[n].name == "" || Named(items[n].name) in st || items[n].value.JFloat? then None
        else Some(st[Named(items[n].name) := items[n].value])
  }

  function InitialState(items: seq<Item>): Option<State> {
    if items == [] then None else Collect(items)
  }

  predicate WellFormed(items: seq<Item>) {
    && (forall i :: 0 <= i < |items| ==> items[i].name != "" && !items[i].value.JFloat?)
    && forall i, j :: 0 <= i < j < |items| ==> items[i].name != items[j].name
  }

  /** A state spelled out: exactly the items, by name. */
  predicate Holds(st: State, items: seq<Item>) {
    && (forall i :: 0 <= i < |items| ==> Named(items[i].name) in st && st[Named(items[i].name)] == items[i].value)
    && forall n :: n in st ==> exists i :: 0 <= i < |items| && n == Named(items[i].name)
  }

  lemma SameNameSameString(s: string, t: string)
    requires Named(s) == Named(t)
    ensures s == t
  {
    assert s == SpellState(Named(s));
  }

  lemma WellFormedStep(front: seq<Item>, last: Item)
    ensures WellFormed(front + [last]) <==>
            WellFormed(front) && last.name != "" && !last.value.JFloat?
            && forall i :: 0 <= i < |front| ==> front[i].name != last.name
  {
    var items := front + [last];
    if WellFormed(items) {
      forall i | 0 <= i < |front|
        ensures front[i].name != last.name && front[i].name != "" && !front[i].value.JFloat?
      {
        assert items[i] == front[i] && items[|front|] == last;
      }
      forall i, j | 0 <= i < j < |front|
        ensures front[i].name != front[j].name
      {
        assert items[i] == front[i] && items[j] == front[j];
      }
      assert items[|front|] == last;
    }
  }

  lemma HoldsNames(st: State, items: seq<Item>, name: string)
    requires Holds(st, items)
    ensures Named(name) in st <==> exists i :: 0 <= i < |items| && items[i].name == name
  {
    if Named(name) in st {
      var i :| 0 <= i < |items| && Named(name) == Named(items[i].name);
      SameNameSameString(name, items[i].name);
    }
  }

  lemma HoldsStep(st: State, front: seq<Item>, last: Item)
    requires Holds(st, front) && Named(last.name) !in st
    ensures Holds(st[Named(last.name) := last.value], front + [last])
  {
    var items := front + [last];
    var next := st[Named(last.name) := last.value];
    forall i | 0 <= i < |items|
      ensures Named(items[i].name) in next && next[Named(items[i].name)] == items[i].value
    {
      if i < |front| {
        assert items[i] == front[i];
      }
    }
    forall n | n in next
      ensures exists i :: 0 <= i < |items| && n == Named(items[i].name)
    {
      if n in st {
        var i :| 0 <= i < |front| && n == Named(front[i].name);
        assert items[i] == front[i];
      } else {
        assert items[|front|] == last;
      }
    }
  }

  lemma {:induction false} CollectMeans(items: seq<Item>)
    ensures Collect(items).Some? <==> WellFormed(items)
    ensures Collect(items).Some? ==> Holds(Collect(items).value, items)
  {
    if items != [] {
      var n := |items| - 1;
      var front, last := items[..n], items[n];
      CollectMeans(front);
      assert items == front + [last];
      WellFormedStep(front, last);
      if Collect(front).Some? {
        var st := Collect(front).value;
        HoldsNames(st, front, last.name);
        if Named(last.name) !in st {
          HoldsStep(st, front, last);
        }
      }
    }
  }

  /** The state names are the item names, spelled back. */
  lemma StateNamesAreItemNames(items: seq<Item>)
    requires InitialState(items).Some?
    ensures forall n :: n in InitialState(items).value ==> Named(SpellState(n)) == n
  {
    CollectMeans(items);
    var st := InitialState(items).value;
    forall n | n in st
      ensures Named(SpellState(n)) == n
    {
      var i :| 0 <= i < |items| && n == Named(items[i].name);
    }
  }

  method ReadInitialState(items: seq<Item>) returns (r: Option<State>)
    ensures r == InitialState(items)
  {
    var st: State := map[];
    for i := 0 to |items|
      invariant Collect(items[..i]) == Some(st)
    {
      var n := Named(items[i].name);
      assert items[..i + 1][..i] == items[..i];
      if items[i].name == "" || n in st || items[i].value.JFloat? {
        CollectFails(items, i + 1);
        return None;
      }
      st := st[n := items[i].value];
    }
    assert items[..|items|] == items;
    return if items == [] then None else Some(st);
  }

  lemma {:induction false} CollectFails(items: seq<Item>, i: nat)
    requires i <= |items| && Collect(items[..i]).None?
    ensures Collect(items).None?
    decreases |items|
  {
    if i < |items| {
      var n := |items| - 1;
      assert items[..n][..i] == items[..i];
      CollectFails(items[..n], i);
    } else {
      assert items[..i] == items;
    }
  }

  // ----- what changes do to one name -----

  function One(b: bool): nat { if b then 1 else 0 }

  function Count(st: State, n: StateName): int { if Countable(st, n) then st[n].i else 0 }

  /** A counter that is not set grows by its increments. */
  lemma AfterCounts(st: State, c: Changes, n: StateName)
    requires Possible(st, c) && n !in c.settled
    ensures Count(After(st, c), n) == Count(st, n) + One(n in c.bumped)
  {}

  /** Changes that increment something, or set nothing, leave the state alone
      exactly when they increment nothing. */
  lemma AfterIsSame(st: State, c: Changes)
    requires Possible(st, c) && c.bumped !! c.settled.Keys && (c.bumped == {} ==> c.settled == map[])
    ensures After(st, c) == st <==> c.bumped == {}
  {
    if n :| n in c.bumped {
      assert After(st, c)[n] == JInt(st[n].i + 1) != st[n];
    }
  }
}
