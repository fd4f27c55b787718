/** Level wave sequencing: the waves are pushed in play order, reversed once so
    that popping the copy yields them in that order, and each update advances
    at most one wave, ending the game as won when none is left. */
module Levels {
  import opened Wrappers

  /** The game states the level reports to the core (only the one it uses). */
  datatype GameState = Won

  /** Why a level could not be constructed. */
  datatype LevelError = NoWaves

  /** A wave, reduced to its completion flag. */
  class Wave {
    var isCompleted: bool

    constructor ()
      ensures !isCompleted
    {
      isCompleted := false;
    }

    /** The wave's own tick; whether it completes the wave is decided by the wave's
        content and is given here as `completes`. */
    method Update(completes: bool)
      modifies this
      ensures isCompleted == (old(isCompleted) || completes)
    {
      if completes {
        isCompleted := true;
      }
    }
  }

  // ---------------------------------------------------------------------------
  // Stacks as sequences: the top is the last element
  // ---------------------------------------------------------------------------

  /** Array.prototype.reverse. */
  function Reversed<T>(s: seq<T>): (r: seq<T>)
    ensures |r| == |s|
    decreases |s|
  {
    if s == [] then [] else [s[|s| - 1]] + Reversed(s[..|s| - 1])
  }

  /** Array.prototype.pop: the last element and the rest, or nothing on an empty array. */
  function Pop<T>(stack: seq<T>): (r: (Option<T>, seq<T>))
    ensures stack == [] ==> r == (None, [])
    ensures stack != [] ==> r.0 == Some(stack[|stack| - 1]) && r.1 + [stack[|stack| - 1]] == stack
  {
    if stack == [] then (None, []) else (Some(stack[|stack| - 1]), stack[..|stack| - 1])
  }

  /** The elements successive pops return, until a pop finds the stack empty. */
  function Pops<T>(stack: seq<T>): seq<T>
    decreases |stack|
  {
    var (top, rest) := Pop(stack);
    if top.None? then [] else [top.value] + Pops(rest)
  }

  /** Element k of a reversed sequence is element |s| − 1 − k of the original. */
  lemma {:induction false} ReversedAt<T>(s: seq<T>, k: nat)
    requires k < |s|
    ensures Reversed(s)[k] == s[|s| - 1 - k]
    decreases |s|
  {
    if k > 0 {
      ReversedAt(s[..|s| - 1], k - 1);
    }
  }

  /** The bottom m elements of a reversed sequence are its last m elements, reversed. */
  lemma {:induction false} ReversedPrefix<T>(s: seq<T>, m: nat)
    requires m <= |s|
    ensures Reversed(s)[..m] == Reversed(s[|s| - m..])
  {
    var r, r' := Reversed(s), Reversed(s[|s| - m..]);
    forall k | 0 <= k < m
      ensures r[k] == r'[k]
    {
      ReversedAt(s, k);
      ReversedAt(s[|s| - m..], k);
      assert s[|s| - m..][m - 1 - k] == s[|s| - 1 - k];
    }
    assert r[..m] == r';
  }

  /** Popping a reversed copy yields the elements in their original order. */
  lemma {:induction false} PopsOfReversed<T>(s: seq<T>)
    ensures Pops(Reversed(s)) == s
    decreases |s|
  {
    if s != [] {
      var r := Reversed(s);
      ReversedAt(s, |s| - 1);
      ReversedPrefix(s, |s| - 1);
      PopsOfReversed(s[1..]);
      assert Pops(r) == [s[0]] + s[1..];
      assert [s[0]] + s[1..] == s;
    }
  }

  // ---------------------------------------------------------------------------
  // The level
  // ---------------------------------------------------------------------------

  class Level {
    /** All waves, reversed: the first wave pushed is last. */
    var waves: seq<Wave>
    /** The waves still to come, popped from the end. */
    var standbyWaves: seq<Wave>
    var currentWave: Wave
    var isLoaded: bool
    /** The outcomes reported to the core, in order (Core.endGame). */
    var endGameRequests: seq<GameState>
    /** The waves in the order they were pushed. */
    ghost var pushedWaves: seq<Wave>

    /** The waves are the pushed ones reversed; the standby waves are a prefix of
        them and the current wave is the one just past that prefix, so it is the
        pushed wave whose turn it is. */
    ghost predicate Valid()
      reads this
    {
      && waves == Reversed(pushedWaves)
      && |standbyWaves| < |waves|
      && standbyWaves == waves[..|standbyWaves|]
      && currentWave == waves[|standbyWaves|]
    }

    constructor (pushed: seq<Wave>)
      requires pushed != []
      ensures Valid()
      ensures pushedWaves == pushed && waves == Reversed(pushed)
      ensures currentWave == pushed[0]
      ensures Pops(standbyWaves) == pushed[1..]
      ensures !isLoaded && endGameRequests == []
    {
      var all: seq<Wave> := [];
      all := all + pushed;
      assert all == pushed;
      all := Reversed(all);
      var standby := all;  // a copy, not a second reference
      var (firstWave, rest) := Pop(standby);
      pushedWaves := pushed;
      waves := all;
      standbyWaves := rest;
      currentWave := firstWave.value;
      isLoaded := false;
      endGameRequests := [];
      new;
      ReversedAt(pushed, |pushed| - 1);
      ReversedPrefix(pushed, |pushed| - 1);
      PopsOfReversed(pushed[1..]);
    }

    /** In every valid state the current wave is the pushed wave whose turn it is,
        and popping the standby waves yields the remaining ones in push order. */
    lemma WavesComeInPushOrder()
      requires Valid()
      ensures currentWave == pushedWaves[|pushedWaves| - 1 - |standbyWaves|]
      ensures Pops(standbyWaves) == pushedWaves[|pushedWaves| - |standbyWaves|..]
    {
      var n, m := |pushedWaves|, |standbyWaves|;
      ReversedAt(pushedWaves, m);
      ReversedPrefix(pushedWaves, m);
      PopsOfReversed(pushedWaves[n - m..]);
    }

    /** While loaded: ticks the current wave and, once it is completed, makes the next
        standby wave current, or reports the game as won when there is none. */
    method Update(waveCompletes: bool)
      requires Valid()
      modifies this`standbyWaves, this`currentWave, this`endGameRequests, currentWave
      ensures Valid()
      ensures !old(isLoaded) ==>
                && standbyWaves == old(standbyWaves) && currentWave == old(currentWave)
                && endGameRequests == old(endGameRequests)
                && currentWave.isCompleted == old(currentWave.isCompleted)
      ensures old(isLoaded) ==> old(currentWave).isCompleted == (old(currentWave.isCompleted) || waveCompletes)
      ensures old(isLoaded) && !old(currentWave).isCompleted ==>
                standbyWaves == old(standbyWaves) && currentWave == old(currentWave)
                && endGameRequests == old(endGameRequests)
      ensures old(isLoaded) && old(currentWave).isCompleted && old(standbyWaves) != [] ==>
                && currentWave == old(standbyWaves)[|old(standbyWaves)| - 1]
                && standbyWaves == old(standbyWaves)[..|old(standbyWaves)| - 1]
                && endGameRequests == old(endGameRequests)
      ensures old(isLoaded) && old(currentWave).isCompleted && old(standbyWaves) == [] ==>
                && currentWave == old(currentWave) && standbyWaves == []
                && endGameRequests == old(endGameRequests) + [Won]
    {
      if isLoaded {
        currentWave.Update(waveCompletes);

        if currentWave.isCompleted {
          var (nextWave, rest) := Pop(standbyWaves);
          standbyWaves := rest;

          if nextWave.Some? {
            currentWave := nextWave.value;
          } else {
            endGameRequests := endGameRequests + [Won];
          }
        }
      }
    }
  }

  /** Constructing a level from no waves raises an error; otherwise the level starts
      at the first wave pushed. */
  method NewLevel(pushed: seq<Wave>) returns (r: Result<Level, LevelError>)
    ensures r.Failure? <==> pushed == []
    ensures r.Success? ==>
              && fresh(r.value) && r.value.Valid()
              && r.value.currentWave == pushed[0] && Pops(r.value.standbyWaves) == pushed[1..]
  {
    if pushed == [] {
      return Failure(NoWaves);
    }
    var level := new Level(pushed);
    return Success(level);
  }
}
