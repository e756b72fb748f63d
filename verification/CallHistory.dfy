/** A call stack read off a history of entries and exits, without running a stack: an entry stands as long
    as its own exit has not been passed. */
module CallHistory {
  datatype Visit<E> = Entered(entry: E) | Left

  /** Entries less exits. */
  function Depth<E>(visits: seq<Visit<E>>): int {
    if visits == [] then 0
    else Depth(visits[..|visits| - 1]) + if visits[|visits| - 1].Entered? then 1 else -1
  }

  /** Visit k is an entry, and from there on there have at no time been as many exits as entries. */
  predicate Stands<E>(visits: seq<Visit<E>>, k: nat)
    requires k < |visits|
  {
    visits[k].Entered? && forall j | k < j <= |visits| :: Depth(visits[k..j]) > 0
  }

  /** The first k visits that stand. */
  function StandingAmong<E>(visits: seq<Visit<E>>, k: nat): (ks: seq<nat>)
    requires k <= |visits|
    ensures |ks| <= k && forall i | 0 <= i < |ks| :: ks[i] < k && Stands(visits, ks[i])
  {
    if k == 0 then [] else StandingAmong(visits, k - 1) + if Stands(visits, k - 1) then [k - 1] else []
  }

  function EntriesAt<E>(visits: seq<Visit<E>>, ks: seq<nat>): (r: seq<E>)
    requires forall i | 0 <= i < |ks| :: ks[i] < |visits| && visits[ks[i]].Entered?
    ensures |r| == |ks| && forall i | 0 <= i < |ks| :: r[i] == visits[ks[i]].entry
  {
    seq(|ks|, i requires 0 <= i < |ks| => visits[ks[i]].entry)
  }

  /** The entries that stand, in the order in which they were made. */
  function Standing<E>(visits: seq<Visit<E>>): seq<E> {
    EntriesAt(visits, StandingAmong(visits, |visits|))
  }

  // ----- one visit more

  lemma DepthSnoc<E>(visits: seq<Visit<E>>, v: Visit<E>)
    ensures Depth(visits + [v]) == Depth(visits) + if v.Entered? then 1 else -1
  {
    assert (visits + [v])[..|visits|] == visits;
  }

  lemma StandsSnoc<E>(visits: seq<Visit<E>>, v: Visit<E>, k: nat)
    requires k < |visits|
    ensures Stands(visits + [v], k) <==> Stands(visits, k) && (v.Left? ==> Depth(visits[k..]) > 1)
  {
    var more := visits + [v];
    forall j | k < j <= |visits| ensures more[k..j] == visits[k..j] {
    }
    assert more[k..|more|] == visits[k..] + [v];
    DepthSnoc(visits[k..], v);
    assert visits[k..|visits|] == visits[k..];
  }

  lemma StandsLast<E>(visits: seq<Visit<E>>, v: Visit<E>)
    ensures Stands(visits + [v], |visits|) <==> v.Entered?
  {
    var more := visits + [v];
    assert more[|visits|..|more|] == [] + [v];
    DepthSnoc([], v);
  }

  /** An entry on top of which n others stand is n + 1 deep. */
  ghost predicate DepthsRight<E>(visits: seq<Visit<E>>, ks: seq<nat>) {
    forall i | 0 <= i < |ks| :: ks[i] < |visits| && Depth(visits[ks[i]..]) == |ks| - i
  }

  /** After an entry all that stood still stand. */
  lemma {:induction false} EnteredAmong<E>(visits: seq<Visit<E>>, v: Visit<E>, k: nat)
    requires k <= |visits| && v.Entered?
    ensures StandingAmong(visits + [v], k) == StandingAmong(visits, k)
  {
    if k > 0 {
      EnteredAmong(visits, v, k - 1);
      StandsSnoc(visits, v, k - 1);
    }
  }

  /** After an exit all but the last do. */
  lemma {:induction false} LeftAmong<E>(visits: seq<Visit<E>>, k: nat, all: seq<nat>, ks: seq<nat>)
    requires k <= |visits| && DepthsRight(visits, all)
    requires ks == StandingAmong(visits, k) && ks <= all
    ensures StandingAmong(visits + [Left], k) == if |ks| == |all| > 0 then ks[..|ks| - 1] else ks
  {
    if k > 0 {
      var before := StandingAmong(visits, k - 1);
      LeftAmong(visits, k - 1, all, before);
      StandsSnoc(visits, Left, k - 1);
      if Stands(visits, k - 1) {
        assert all[|before|] == ks[|before|] == k - 1;
        assert ks[..|before|] == before;
      }
    }
  }

  lemma {:induction false} AmongPrefix<E>(visits: seq<Visit<E>>, j: nat, k: nat)
    requires j <= k <= |visits|
    ensures StandingAmong(visits, j) <= StandingAmong(visits, k)
  {
    if j < k {
      AmongPrefix(visits, j, k - 1);
    }
  }

  lemma EnteredStanding<E>(visits: seq<Visit<E>>, v: Visit<E>)
    requires v.Entered?
    ensures StandingAmong(visits + [v], |visits| + 1) == StandingAmong(visits, |visits|) + [|visits|]
  {
    EnteredAmong(visits, v, |visits|);
    StandsLast(visits, v);
  }

  lemma LeftStanding<E>(visits: seq<Visit<E>>, all: seq<nat>)
    requires all == StandingAmong(visits, |visits|) && DepthsRight(visits, all)
    ensures StandingAmong(visits + [Left], |visits| + 1) == if all == [] then [] else all[..|all| - 1]
  {
    LeftAmong(visits, |visits|, all, all);
    StandsLast(visits, Left);
  }

  /** What stands after one visit more. */
  function Next(all: seq<nat>, n: nat, entered: bool): seq<nat> {
    if entered then all + [n] else if all == [] then [] else all[..|all| - 1]
  }

  lemma StandingSnoc<E>(visits: seq<Visit<E>>, v: Visit<E>, all: seq<nat>)
    requires all == StandingAmong(visits, |visits|) && DepthsRight(visits, all)
    ensures StandingAmong(visits + [v], |visits| + 1) == Next(all, |visits|, v.Entered?)
  {
    if v.Entered? {
      EnteredStanding(visits, v);
    } else {
      LeftStanding(visits, all);
    }
  }

  lemma DepthsSnoc<E>(visits: seq<Visit<E>>, v: Visit<E>, all: seq<nat>, now: seq<nat>)
    requires DepthsRight(visits, all)
    requires now == Next(all, |visits|, v.Entered?)
    ensures DepthsRight(visits + [v], now)
  {
    forall i | 0 <= i < |now| ensures now[i] < |visits| + 1 && Depth((visits + [v])[now[i]..]) == |now| - i {
      if i < |all| {
        assert (visits + [v])[all[i]..] == visits[all[i]..] + [v];
        DepthSnoc(visits[all[i]..], v);
      } else {
        assert (visits + [v])[|visits|..] == [] + [v];
        DepthSnoc([], v);
      }
    }
  }

  lemma {:induction false} Depths<E>(visits: seq<Visit<E>>, all: seq<nat>)
    requires all == StandingAmong(visits, |visits|)
    ensures DepthsRight(visits, all)
  {
    if visits != [] {
      var front, v := visits[..|visits| - 1], visits[|visits| - 1];
      var before := StandingAmong(front, |front|);
      Depths(front, before);
      StandingSnoc(front, v, before);
      DepthsSnoc(front, v, before, Next(before, |front|, v.Entered?));
      assert visits == front + [v];
    }
  }

  /** An entry goes on top, and an exit takes the top away, if there is one. */
  lemma StandingNext<E>(visits: seq<Visit<E>>, v: Visit<E>)
    ensures var was, now := Standing(visits), Standing(visits + [v]);
            now == if v.Entered? then was + [v.entry] else if was == [] then [] else was[..|was| - 1]
  {
    var all := StandingAmong(visits, |visits|);
    Depths(visits, all);
    StandingSnoc(visits, v, all);
  }

  /** A stack as a history. */
  function Entering<E>(stack: seq<E>): (visits: seq<Visit<E>>)
    ensures |visits| == |stack| && forall i | 0 <= i < |stack| :: visits[i] == Entered(stack[i])
  {
    seq(|stack|, i requires 0 <= i < |stack| => Entered(stack[i]))
  }

  lemma {:induction false} EnteringStands<E>(stack: seq<E>)
    ensures Standing(Entering(stack)) == stack
  {
    if stack != [] {
      var front, top := stack[..|stack| - 1], stack[|stack| - 1];
      EnteringStands(front);
      assert Entering(stack) == Entering(front) + [Entered(top)];
      StandingNext(Entering(front), Entered(top));
      assert stack == front + [top];
    }
  }
}
