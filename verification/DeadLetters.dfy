/** The dead letter queue: a Redis list that push_to_dlq appends to and trims (app/worker/tasks.py). */
module DeadLetters {

  /** An index of LTRIM: a negative one counts from the end of the list. */
  function FromEnd(index: int, length: nat): int {
    if index < 0 then index + length else index
  }

  /** Redis LTRIM: the elements from start to stop, both included. */
  function Ltrim<T>(xs: seq<T>, start: int, stop: int): seq<T> {
    var first := if FromEnd(start, |xs|) < 0 then 0 else FromEnd(start, |xs|);
    var last := if FromEnd(stop, |xs|) >= |xs| then |xs| - 1 else FromEnd(stop, |xs|);
    if first >= |xs| || last < first then [] else xs[first..last + 1]
  }

  /** What a retention of n entries is to leave of a history: the last n of them. A setting of 0 makes the trim start at
      the first element, and a negative one past the last. */
  function Retained<T>(history: seq<T>, n: int): seq<T> {
    if n < 0 then []
    else if n == 0 || |history| <= n then history
    else history[|history| - n..]
  }

  /** One push onto a list that holds what is retained of the history. */
  lemma PushRetains<T>(history: seq<T>, x: T, n: int)
    ensures Ltrim(Retained(history, n) + [x], -n, -1) == Retained(history + [x], n)
  {
    var now := Retained(history, n) + [x];
    if n < 0 {
      assert now == [x];
    } else if n == 0 || |history| < n {
      assert Ltrim(now, -n, -1) == now == history + [x];
    } else {
      assert |now| == n + 1;
      assert Ltrim(now, -n, -1) == now[1..];
    }
  }

  class DeadLetterQueue<T> {
    const maxEntries: int    // INSPECTION_DLQ_MAX_ENTRIES
    var entries: seq<T>
    ghost var history: seq<T>

    /** The list is the retained end of everything ever pushed. */
    ghost predicate Valid()
      reads this
    {
      entries == Retained(history, maxEntries)
    }

    constructor (maxEntries: int)
      ensures Valid() && history == [] && this.maxEntries == maxEntries
    {
      this.maxEntries := maxEntries;
      entries, history := [], [];
    }

    method Push(x: T)
      requires Valid()
      modifies this
      ensures Valid() && history == old(history) + [x]
    {
      PushRetains(history, x, maxEntries);
      history := history + [x];
      entries := entries + [x];
      entries := Ltrim(entries, -maxEntries, -1);
    }
  }

  /** No letter is lost before maxEntries newer ones have come; none is kept after. With a setting of 0 the bound
      disappears. */
  lemma LetterIsKeptFor<T>(history: seq<T>, newer: seq<T>, x: T, n: nat)
    ensures var r := Retained(history + [x] + newer, n);
            if n == 0 || |newer| < n
            then |r| > |newer| && r[|r| - |newer| - 1] == x
            else r == newer[|newer| - n..]
  {
    var all := history + [x] + newer;
    assert all[|history|] == x;
    if n > 0 && |newer| >= n {
      assert all[|all| - n..] == newer[|newer| - n..];
    }
  }
}
