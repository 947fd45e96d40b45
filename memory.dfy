/** The two bounded sample memories of Expert Iteration: MemoryList keeps three
    aligned lists (state, policy, value) trimmed oldest-first, MemorySet keeps a
    dictionary from state to (policy, value) and evicts arbitrary keys. */
module Memory {
  import opened Outcomes

  const BatchSize: nat := 1024
  const MaxMemorySize: nat := 50000

  // ---------------------------------------------------------------------------
  // MemoryList
  // ---------------------------------------------------------------------------

  /** Python's `t[-MaxMemorySize:]`: the last MaxMemorySize entries, or all of them. */
  function Trim<T>(t: seq<T>): (r: seq<T>)
    ensures |r| == Min(|t|, MaxMemorySize)
    ensures forall i :: 0 <= i < |r| ==> r[i] == t[|t| - |r| + i]
  {
    if |t| > MaxMemorySize then t[|t| - MaxMemorySize..] else t
  }

  /** Trimming after every save keeps the same entries as trimming once at the end. */
  lemma TrimAppend<T>(a: seq<T>, b: seq<T>)
    ensures Trim(Trim(a) + b) == Trim(a + b)
  {
    var x, y := Trim(Trim(a) + b), Trim(a + b);
    assert |x| == |y|;
    forall i | 0 <= i < |x|
      ensures x[i] == y[i]
    {
      var j := |Trim(a) + b| - |x| + i;
      if j >= |Trim(a)| {
        assert (Trim(a) + b)[j] == b[j - |Trim(a)|] == (a + b)[|a + b| - |y| + i];
      } else {
        assert (Trim(a) + b)[j] == Trim(a)[j] == a[|a| - |Trim(a)| + j] == (a + b)[|a + b| - |y| + i];
      }
    }
  }

  /** The three stored lists of a MemoryList. */
  datatype Columns<S, P> = Columns(states: seq<S>, policies: seq<P>, values: seq<real>)
  {
    predicate Aligned()
    {
      |states| == |policies| == |values|
    }
  }

  /** The memory after one save: the first save stores the arrays as given,
      later saves extend each list and keep its last MaxMemorySize entries. */
  function Saved<S, P>(memory: Option<Columns<S, P>>, s: seq<S>, p: seq<P>, v: seq<real>): (c: Columns<S, P>)
    ensures memory.Some? ==> |c.states| <= MaxMemorySize && |c.policies| <= MaxMemorySize && |c.values| <= MaxMemorySize
  {
    match memory
    case None => Columns(s, p, v)
    case Some(m) => Columns(Trim(m.states + s), Trim(m.policies + p), Trim(m.values + v))
  }

  /** A save keeps the three lists aligned when it is given aligned arrays. */
  lemma SavedAligned<S, P>(memory: Option<Columns<S, P>>, s: seq<S>, p: seq<P>, v: seq<real>)
    requires memory.Some? ==> memory.value.Aligned()
    requires |s| == |p| == |v|
    ensures Saved(memory, s, p, v).Aligned()
  {
  }

  /** After a save into an existing memory, the memory holds at most
      MaxMemorySize samples: the most recent ones, old before new, in order. */
  lemma SavedKeepsMostRecent<S, P>(m: Columns<S, P>, s: seq<S>, p: seq<P>, v: seq<real>)
    ensures var r := Saved(Some(m), s, p, v);
      && |r.states| == Min(|m.states| + |s|, MaxMemorySize)
      && forall i :: 0 <= i < |r.states| ==>
           r.states[i] == (m.states + s)[|m.states| + |s| - |r.states| + i]
  {
  }

  /** The first save does not trim: one first save of more than MaxMemorySize
      samples leaves more than MaxMemorySize of them stored. */
  lemma FirstSaveIsNotTrimmed<S, P>(s: seq<S>, p: seq<P>, v: seq<real>)
    ensures Saved(None, s, p, v).states == s
  {
  }

  /** The memory after a series of saves (each an aligned triple), the first
      into an empty MemoryList. */
  function SavedAll<S, P>(memory: Option<Columns<S, P>>, batches: seq<Columns<S, P>>): Option<Columns<S, P>>
  {
    if batches == [] then memory
    else
      var last := batches[|batches| - 1];
      Some(Saved(SavedAll(memory, batches[..|batches| - 1]), last.states, last.policies, last.values))
  }

  function AllStates<S, P>(batches: seq<Columns<S, P>>): seq<S>
  {
    if batches == [] then [] else AllStates(batches[..|batches| - 1]) + batches[|batches| - 1].states
  }

  lemma SavedAllSnoc<S, P>(memory: Option<Columns<S, P>>, batches: seq<Columns<S, P>>, last: Columns<S, P>)
    ensures SavedAll(memory, batches + [last]) == Some(Saved(SavedAll(memory, batches), last.states, last.policies, last.values))
    ensures AllStates(batches + [last]) == AllStates(batches) + last.states
  {
    assert (batches + [last])[..|batches|] == batches;
  }

  /** After a first save and any later saves, the stored states are the last
      MaxMemorySize of the first batch followed by all later ones: later saves
      retain exactly the most recent samples in their original order. */
  lemma {:induction false} SavedAllKeepsMostRecent<S, P>(first: Columns<S, P>, later: seq<Columns<S, P>>)
    requires |later| > 0
    ensures SavedAll(None, [first] + later).Some?
    ensures SavedAll(None, [first] + later).value.states == Trim(first.states + AllStates(later))
    decreases |later|, 0
  {
    var init, last := later[..|later| - 1], later[|later| - 1];
    assert later == init + [last];
    assert [first] + later == ([first] + init) + [last];
    SavedAllSnoc(None, [first] + init, last);
    SavedAllSnoc(None, init, last);
    SavedThenTrimmed(first, init, last.states);
  }

  /** Whatever the saves so far kept, trimming it together with new states
      keeps what trimming all the saved states together with them keeps. */
  lemma {:induction false} SavedThenTrimmed<S, P>(first: Columns<S, P>, init: seq<Columns<S, P>>, t: seq<S>)
    ensures SavedAll(None, [first] + init).Some?
    ensures Trim(SavedAll(None, [first] + init).value.states + t) == Trim(first.states + (AllStates(init) + t))
    decreases |init|, 1
  {
    if init == [] {
      assert [first] + init == [] + [first];
      SavedAllSnoc(None, [], first);
      assert AllStates(init) + t == t;
    } else {
      SavedAllKeepsMostRecent(first, init);
      TrimAppend(first.states + AllStates(init), t);
      assert first.states + AllStates(init) + t == first.states + (AllStates(init) + t);
    }
  }

  class MemoryList<S, P> {
    /** The staging lists of the current game; emptied by every save. */
    var sArray: seq<S>
    var piArray: seq<P>
    var vArray: seq<real>
    var turnArray: seq<int>
    /** None until the first save. */
    var memory: Option<Columns<S, P>>

    ghost predicate Staged()
      reads this
    {
      sArray == [] && piArray == [] && vArray == [] && turnArray == []
    }

    constructor ()
      ensures Staged() && memory == None
    {
      sArray, piArray, vArray, turnArray := [], [], [], [];
      memory := None;
    }

    /** clear: empties the four staging lists and nothing else. */
    method Clear()
      modifies this`sArray, this`piArray, this`vArray, this`turnArray
      ensures Staged()
    {
      sArray, piArray, vArray, turnArray := [], [], [], [];
    }

    /** save: stores the given arrays as the memory (first save) or extends and
        trims the stored lists (later saves), then clears the staging lists. */
    method Save(s: seq<S>, p: seq<P>, v: seq<real>)
      modifies this
      ensures memory == Some(Saved(old(memory), s, p, v))
      ensures Staged()
    {
      if memory.None? {
        memory := Some(Columns(s, p, v));
      } else {
        var m := memory.value;
        var states, policies, values := m.states + s, m.policies + p, m.values + v;
        memory := Some(Columns(Trim(states), Trim(policies), Trim(values)));
      }
      Clear();
    }

    method GetSize() returns (n: nat)
      requires memory.Some?
      ensures n == |memory.value.states|
    {
      n := |memory.value.states|;
    }

    /** get_batch: draws min(BatchSize, size) distinct positions of the state
        list (which ones is a random choice) and returns the state, policy and
        value stored at each. */
    method GetBatch() returns (indices: seq<nat>, states: seq<S>, policies: seq<P>, values: seq<real>)
      requires memory.Some?
      requires |memory.value.policies| >= |memory.value.states| && |memory.value.values| >= |memory.value.states|
      ensures |indices| == Min(BatchSize, |memory.value.states|)
      ensures forall i, j :: 0 <= i < j < |indices| ==> indices[i] != indices[j]
      ensures |states| == |policies| == |values| == |indices|
      ensures forall i :: 0 <= i < |indices| ==>
        && indices[i] < |memory.value.states|
        && states[i] == memory.value.states[indices[i]]
        && policies[i] == memory.value.policies[indices[i]]
        && values[i] == memory.value.values[indices[i]]
    {
      var m := memory.value;
      indices := DrawDistinct(|m.states|, Min(BatchSize, |m.states|));
      states := seq(|indices|, i requires 0 <= i < |indices| => m.states[indices[i]]);
      policies := seq(|indices|, i requires 0 <= i < |indices| => m.policies[indices[i]]);
      values := seq(|indices|, i requires 0 <= i < |indices| => m.values[indices[i]]);
    }
  }

  /** A random choice: some element of a non-empty set. */
  method Choose<T>(s: set<T>) returns (x: T)
    requires s != {}
    ensures x in s
  {
    x :| x in s;
  }

  /** The numbers 0 .. n - 1. */
  function Range(n: nat): (r: set<nat>)
    ensures forall j :: j in r <==> 0 <= j < n
    ensures |r| == n
  {
    if n == 0 then {} else Range(n - 1) + {n - 1}
  }

  /** np.random.choice(n, size = k, replace = False): k distinct numbers below n,
      drawn one at a time from those not drawn yet. */
  method DrawDistinct(n: nat, k: nat) returns (drawn: seq<nat>)
    requires k <= n
    ensures |drawn| == k
    ensures forall i :: 0 <= i < k ==> drawn[i] < n
    ensures forall i, j :: 0 <= i < j < k ==> drawn[i] != drawn[j]
  {
    var remaining: set<nat> := Range(n);
    drawn := [];
    while |drawn| < k
      invariant |drawn| <= k
      invariant |remaining| == n - |drawn|
      invariant forall j :: j in remaining ==> j < n
      invariant forall i :: 0 <= i < |drawn| ==> drawn[i] < n && drawn[i] !in remaining
      invariant forall i, j :: 0 <= i < j < |drawn| ==> drawn[i] != drawn[j]
    {
      var j := Choose(remaining);
      drawn := drawn + [j];
      remaining := remaining - {j};
    }
  }

  // ---------------------------------------------------------------------------
  // MemorySet
  // ---------------------------------------------------------------------------

  /** The dictionary once save's loop has stored the first n samples: sample i
      maps state s[i] to (p[i], v[i]), a later sample overwriting an earlier one. */
  function Upserted<S, P>(m: map<S, (P, real)>, s: seq<S>, p: seq<P>, v: seq<real>, n: nat): (r: map<S, (P, real)>)
    requires n <= |s| <= |p| && |s| <= |v|
    ensures m.Keys <= r.Keys
    ensures forall i :: 0 <= i < n ==> s[i] in r
  {
    if n == 0 then m else Upserted(m, s, p, v, n - 1)[s[n - 1] := (p[n - 1], v[n - 1])]
  }

  /** Each state ends up mapped to the last policy and value given for it; states
      not given keep their entry; no other key appears. */
  lemma {:induction false} UpsertedLastWins<S, P>(m: map<S, (P, real)>, s: seq<S>, p: seq<P>, v: seq<real>, n: nat)
    requires n <= |s| <= |p| && |s| <= |v|
    ensures var r := Upserted(m, s, p, v, n);
      && r.Keys == m.Keys + (set i | 0 <= i < n :: s[i])
      && (forall j :: 0 <= j < n && (forall j' :: j < j' < n ==> s[j'] != s[j]) ==> r[s[j]] == (p[j], v[j]))
      && (forall k :: k in m && (forall j :: 0 <= j < n ==> s[j] != k) ==> r[k] == m[k])
  {
    if n > 0 {
      UpsertedLastWins(m, s, p, v, n - 1);
      assert (set i | 0 <= i < n :: s[i]) == (set i | 0 <= i < n - 1 :: s[i]) + {s[n - 1]};
    }
  }

  /** Saving one state twice keeps only the second policy and value, and one entry. */
  lemma RepeatedStateOverwrites<S, P>(m: map<S, (P, real)>, x: S, p1: P, v1: real, p2: P, v2: real)
    ensures var r := Upserted(m, [x, x], [p1, p2], [v1, v2], 2);
      r[x] == (p2, v2) && r.Keys == m.Keys + {x}
  {
    var s, p, v := [x, x], [p1, p2], [v1, v2];
    assert Upserted(m, s, p, v, 0) == m;
    assert Upserted(m, s, p, v, 1) == m[x := (p1, v1)];
    assert Upserted(m, s, p, v, 2) == m[x := (p1, v1)][x := (p2, v2)];
  }

  class MemorySet<S(==), P> {
    var memory: map<S, (P, real)>

    constructor ()
      ensures memory == map[]
    {
      memory := map[];
    }

    /** save: stores every sample, overwriting the entry of a repeated state,
        then removes randomly chosen keys while more than MaxMemorySize remain. */
    method Save(s: seq<S>, p: seq<P>, v: seq<real>)
      requires |s| <= |p| && |s| <= |v|
      modifies this
      ensures var stored := Upserted(old(memory), s, p, v, |s|);
        && |memory| <= MaxMemorySize
        && memory.Keys <= stored.Keys
        && (forall k :: k in memory ==> memory[k] == stored[k])
        && (|stored| <= MaxMemorySize ==> memory == stored)
        && (|stored| > MaxMemorySize ==> |memory| == MaxMemorySize)
    {
      var i := 0;
      while i < |s|
        invariant 0 <= i <= |s|
        invariant memory == Upserted(old(memory), s, p, v, i)
      {
        memory := memory[s[i] := (p[i], v[i])];
        i := i + 1;
      }
      ghost var stored := memory;
      while |memory| > MaxMemorySize
        invariant memory.Keys <= stored.Keys
        invariant forall k :: k in memory ==> memory[k] == stored[k]
        invariant |stored| <= MaxMemorySize ==> memory == stored
        invariant |stored| > MaxMemorySize ==> |memory| >= MaxMemorySize
        decreases |memory|
      {
        var key := Choose(memory.Keys);
        memory := memory - {key};
      }
    }

    method GetSize() returns (n: nat)
      ensures n == |memory|
    {
      n := |memory|;
    }

    /** get_batch: min(BatchSize, size) distinct stored states, drawn at random,
        each with its own stored policy and value. */
    method GetBatch() returns (states: seq<S>, policies: seq<P>, values: seq<real>)
      ensures |states| == Min(BatchSize, |memory|)
      ensures forall i, j :: 0 <= i < j < |states| ==> states[i] != states[j]
      ensures |policies| == |values| == |states|
      ensures forall i :: 0 <= i < |states| ==>
        states[i] in memory && policies[i] == memory[states[i]].0 && values[i] == memory[states[i]].1
    {
      var size := Min(BatchSize, |memory|);
      var remaining := memory.Keys;
      states := [];
      while |states| < size
        invariant |states| <= size
        invariant remaining <= memory.Keys && |remaining| == |memory| - |states|
        invariant forall i :: 0 <= i < |states| ==> states[i] in memory && states[i] !in remaining
        invariant forall i, j :: 0 <= i < j < |states| ==> states[i] != states[j]
      {
        var key := Choose(remaining);
        states := states + [key];
        remaining := remaining - {key};
      }
      var stored := memory;
      policies := seq(|states|, i requires 0 <= i < |states| && states[i] in stored => stored[states[i]].0);
      values := seq(|states|, i requires 0 <= i < |states| && states[i] in stored => stored[states[i]].1);
    }
  }
}
