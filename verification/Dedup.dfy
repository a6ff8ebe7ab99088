/** The bounded first-in-first-out cache that decides which messages a node handles: an id is
    accepted when the cache does not hold it, and accepting beyond the cap forgets the oldest. */
module Dedup {
  import opened Seqs

  /** The queue after accepting `id`. */
  function Push(queue: seq<string>, cap: int, id: string): seq<string> {
    var longer := queue + [id];
    if |longer| > cap then longer[1..] else longer
  }

  /** The queue after the ids in `offered` arrived one by one. */
  function Window(cap: int, offered: seq<string>): seq<string> {
    if offered == [] then []
    else
      var before, id := Window(cap, offered[..|offered| - 1]), offered[|offered| - 1];
      if id in before then before else Push(before, cap, id)
  }

  /** The arrivals that were accepted, in order. */
  function Accepted(cap: int, offered: seq<string>): seq<string> {
    if offered == [] then []
    else
      var before, id := offered[..|offered| - 1], offered[|offered| - 1];
      if id in Window(cap, before) then Accepted(cap, before) else Accepted(cap, before) + [id]
  }

  function Last(s: seq<string>, n: nat): seq<string> {
    if |s| <= n then s else s[|s| - n..]
  }

  lemma {:induction false} PushIsWindow(s: seq<string>, cap: nat, id: string)
    ensures Push(Last(s, cap), cap, id) == Last(s + [id], cap)
  {
    if |s| <= cap {
    } else {
      assert (s[|s| - cap..] + [id])[1..] == (s + [id])[|s| + 1 - cap..];
    }
  }

  /** The cache holds exactly the last `cap` acceptances, without repeats. */
  lemma {:induction false} WindowIsTail(cap: nat, offered: seq<string>)
    ensures Window(cap, offered) == Last(Accepted(cap, offered), cap)
    ensures NoRepeats(Window(cap, offered)) && |Window(cap, offered)| <= cap
  {
    if offered != [] {
      var before, id := offered[..|offered| - 1], offered[|offered| - 1];
      WindowIsTail(cap, before);
      PushIsWindow(Accepted(cap, before), cap, id);
    }
  }

  /** What is accepted at each point was not among the last `cap` acceptances before it. */
  lemma {:induction false} AcceptedAfresh(cap: nat, offered: seq<string>, j: nat)
    requires j < |Accepted(cap, offered)|
    ensures Accepted(cap, offered)[j] !in Last(Accepted(cap, offered)[..j], cap)
  {
    var before := offered[..|offered| - 1];
    var a := Accepted(cap, before);
    if j < |a| {
      AcceptedAfresh(cap, before, j);
      assert Accepted(cap, offered)[..j] == a[..j];
    } else {
      WindowIsTail(cap, before);
      assert Accepted(cap, offered)[..j] == a;
    }
  }

  lemma RecentIsLast(a: seq<string>, cap: nat, i: nat, j: nat)
    requires i < j < |a|
    ensures j - i <= cap ==> a[i] in Last(a[..j], cap)
  {
    var last := Last(a[..j], cap);
    if j <= cap {
      assert last[i] == a[i];
    } else if j - i <= cap {
      assert last[i - (j - cap)] == a[i];
    }
  }

  /** The window is exact: between two acceptances of one id there are at least `cap` others. */
  lemma ReacceptedOnlyAfterCap(cap: nat, offered: seq<string>, i: nat, j: nat)
    requires i < j < |Accepted(cap, offered)|
    requires Accepted(cap, offered)[i] == Accepted(cap, offered)[j]
    ensures j - i - 1 >= cap
  {
    AcceptedAfresh(cap, offered, j);
    RecentIsLast(Accepted(cap, offered), cap, i, j);
  }

  /** Conversely an arrival is dropped only when it is one of the last `cap` acceptances. */
  lemma DroppedOnlyRepeats(cap: nat, offered: seq<string>, id: string)
    ensures Accepted(cap, offered + [id]) ==
              if id in Last(Accepted(cap, offered), cap) then Accepted(cap, offered) else Accepted(cap, offered) + [id]
  {
    assert (offered + [id])[..|offered|] == offered;
    WindowIsTail(cap, offered);
  }

  /** With fewer ids than the cap, every id is accepted exactly once. */
  lemma {:induction false} NothingForgotten(cap: nat, offered: seq<string>, ids: set<string>)
    requires forall id :: id in offered ==> id in ids
    requires |ids| <= cap
    ensures NoRepeats(Accepted(cap, offered))
    ensures forall id :: id in Accepted(cap, offered) <==> id in offered
  {
    if offered != [] {
      var before, id := offered[..|offered| - 1], offered[|offered| - 1];
      assert forall x :: x in before ==> x in offered;
      NothingForgotten(cap, before, ids);
      WindowIsTail(cap, before);
      var a := Accepted(cap, before);
      FewDistinct(a, ids);
      assert offered == before + [id];
    }
  }

  lemma DropOldest(queue: seq<string>, held: set<string>)
    requires queue != [] && NoRepeats(queue) && forall id :: id in held <==> id in queue
    ensures NoRepeats(queue[1..]) && forall id :: id in held - {queue[0]} <==> id in queue[1..]
  {
    assert queue == [queue[0]] + queue[1..];
    assert queue[0] !in queue[1..];
  }

  /** The part of a swarm node that decides whether an arriving message is handled. */
  class SwarmNode {
    const seenCap: nat
    var seenMessages: set<string>
    var seenOrder: seq<string>

    constructor (cap: nat)
      ensures seenCap == cap && seenOrder == [] && Valid()
    {
      seenCap, seenMessages, seenOrder := cap, {}, [];
    }

    ghost predicate Valid()
      reads this
    {
      && NoRepeats(seenOrder) && |seenOrder| <= seenCap
      && (forall id :: id in seenMessages <==> id in seenOrder)
    }

    method Remember(messageId: string)
      modifies this
      ensures seenOrder == Push(old(seenOrder), seenCap, messageId)
      ensures seenMessages == old(seenMessages) + {messageId} -
                              (if |old(seenOrder)| + 1 > seenCap then {(old(seenOrder) + [messageId])[0]} else {})
      ensures old(Valid() && messageId !in seenMessages) ==> Valid()
    {
      ghost var isNew := Valid() && messageId !in seenMessages;
      seenMessages := seenMessages + {messageId};
      seenOrder := seenOrder + [messageId];
      if isNew {
        DropOldest(seenOrder, seenMessages);
      }
      if |seenOrder| > seenCap {
        var oldest := seenOrder[0];
        seenOrder := seenOrder[1..];
        seenMessages := seenMessages - {oldest};
      }
    }

    /** Whether the message goes on to its handler. `offered` is what has arrived so far. */
    method OnMessage(mid: string, ghost offered: seq<string>) returns (handled: bool)
      requires Valid() && seenOrder == Window(seenCap, offered)
      modifies this
      ensures Valid() && seenOrder == Window(seenCap, offered + [mid])
      ensures Accepted(seenCap, offered + [mid]) == Accepted(seenCap, offered) + if handled then [mid] else []
    {
      assert (offered + [mid])[..|offered|] == offered;
      handled := mid !in seenMessages;
      if handled {
        Remember(mid);
      }
    }
  }
}
