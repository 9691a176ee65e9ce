/** Whole runs of a guild's player: any sequence of commands and markers. */
module QueueRuns {
  import opened PlayerState
  import opened PlaybackRuns
  import opened Sequences
  import QueueLaws

  /** What can happen to a player.  The queue command resets the offset before it
      removes a user's tracks. */
  datatype Operation =
    | AddTrack(track: Track, top: bool, slip: int)
    | SkipTracks(amount: int, remove: bool, popCurrent: bool, pushBack: bool)
    | RemoveTracks(pos: nat, count: nat, end: nat)
    | ClearUser(user: nat)
    | HandleMarker(isEnd: bool)
    | MoveTrack(from: int, target: int)
    | ReverseOrder(size: nat)
    | ShuffleOrder(draws: seq<nat>)
    | GoBack

  function Apply(s: State, op: Operation): State
    requires OffsetOk(s)
  {
    match op
    case AddTrack(track, top, slip) => Add(s, track, top, slip)
    case SkipTracks(amount, remove, popCurrent, pushBack) => Skip(s, amount, remove, popCurrent, pushBack).1
    case RemoveTracks(pos, count, end) => Remove(s, pos, count, end)
    case ClearUser(user) => RemoveByUser(Reset(s), user)
    case HandleMarker(isEnd) => Marker(s, isEnd)
    case MoveTrack(from, target) => Move(s, from, target)
    case ReverseOrder(size) => ReverseQueue(s, size).state
    case ShuffleOrder(draws) => if |draws| < |s.queue| then s else Shuffle(s, draws)
    case GoBack => Previous(s)
  }

  /** The offset points into the queue after every operation. */
  lemma OffsetKept(s: State, op: Operation)
    requires OffsetOk(s)
    ensures OffsetOk(Apply(s, op))
  {
    if op.AddTrack? || op.MoveTrack? {
      LengthKept(s, op);
    }
  }

  lemma LengthKept(s: State, op: Operation)
    requires OffsetOk(s) && (op.AddTrack? || op.MoveTrack?)
    ensures |Apply(s, op).queue| == |s.queue| + if op.AddTrack? then 1 else 0
  {
  }

  function ApplyAll(s: State, ops: seq<Operation>): (r: State)
    requires OffsetOk(s)
    ensures OffsetOk(r)
    decreases |ops|
  {
    if ops == [] then s
    else
      OffsetKept(s, ops[0]);
      ApplyAll(Apply(s, ops[0]), ops[1..])
  }

  /** The tracks that a run adds. */
  function Added(ops: seq<Operation>): seq<Track> {
    if ops == [] then []
    else (if ops[0].AddTrack? then [ops[0].track] else []) + Added(ops[1..])
  }

  /** The tracks of a queue with how often each occurs, apart from how their playback
      stands. */
  function Bag(q: seq<Track>): multiset<Track> {
    multiset(Keys(q))
  }

  lemma BagOfParts(a: seq<Track>, b: seq<Track>)
    ensures Bag(a + b) == Bag(a) + Bag(b)
  {
    assert Keys(a + b) == Keys(a) + Keys(b);
  }

  lemma BagOfFront(q: seq<Track>)
    requires q != []
    ensures Bag(q) == multiset{Key(q[0])} + Bag(q[1..])
  {
    assert Keys(q) == [Key(q[0])] + Keys(q[1..]);
  }

  lemma BagWithout(q: seq<Track>, i: nat)
    requires i < |q|
    ensures Bag(q) == multiset{Key(q[i])} + Bag(Erase(q, i))
    ensures multiset(q) == multiset{q[i]} + multiset(Erase(q, i))
  {
    assert q == q[..i] + q[i..];
    assert q[i..] == [q[i]] + q[i + 1..];
    BagOfParts(q[..i], q[i..]);
    BagOfFront(q[i..]);
    BagOfParts(q[..i], q[i + 1..]);
  }

  lemma TakeFromBoth(t: Track, a: multiset<Track>, b: multiset<Track>)
    requires multiset{t} + a <= multiset{t} + b
    ensures a <= b
  {
    forall u ensures a[u] <= b[u] {
      assert (multiset{t} + a)[u] <= (multiset{t} + b)[u];
    }
  }

  /** Of tracks that all come from a queue the bag is part of the queue's. */
  lemma {:induction false} BagOfSome(a: seq<Track>, q: seq<Track>)
    requires multiset(a) <= multiset(q)
    ensures Bag(a) <= Bag(q)
    decreases |a|
  {
    if a != [] {
      assert a[0] in multiset(a);
      var i :| 0 <= i < |q| && q[i] == a[0];
      assert Erase(a, 0) == a[1..];
      BagWithout(a, 0);
      BagWithout(q, i);
      TakeFromBoth(a[0], multiset(a[1..]), multiset(Erase(q, i)));
      BagOfSome(a[1..], Erase(q, i));
    }
  }

  lemma BagOfReset(s: State)
    requires OffsetOk(s)
    ensures Bag(SettleFront(Reset(s).queue)) == Bag(Reset(s).queue) <= Bag(s.queue)
  {
    var q := Reset(s).queue;
    assert Keys(SettleFront(q)) == Keys(q);
    if s.queue != [] {
      QueueLaws.ResetMovesOnlyPlaying(s);
      BagOfSome(q, s.queue);
    }
  }

  lemma {:induction false} BagOfSkipped(q: seq<Track>, k: nat, requeue: bool)
    ensures Bag(Skipped(q, k, requeue).1) <= Bag(q)
    decreases k
  {
    if k > 0 && q != [] {
      var back := if requeue then [Settled(q[0])] else [];
      BagOfFront(q);
      BagOfParts(q[1..], back);
      assert Bag(back) <= multiset{Key(q[0])} by {
        if requeue {
          assert Keys(back) == [Key(q[0])];
        }
      }
      BagOfSkipped(q[1..] + back, k - 1, requeue);
    }
  }

  lemma {:induction false} BagOfOthers(q: seq<Track>, user: nat)
    ensures Bag(NotOf(q, user)) <= Bag(q)
  {
    if q != [] {
      BagOfFront(q);
      BagOfParts(if q[0].userId == user then [] else [q[0]], NotOf(q[1..], user));
      assert Keys([q[0]]) == [Key(q[0])];
      BagOfOthers(q[1..], user);
    }
  }

  lemma BagOfCleared(q: seq<Track>, user: nat)
    requires q != []
    ensures Bag([q[0]] + NotOf(q[1..], user)) <= Bag(q)
  {
    var left := [q[0]] + NotOf(q[1..], user);
    BagOfFront(q);
    BagOfFront(left);
    BagOfOthers(q[1..], user);
  }

  lemma BagOfAdvanced(s: State, isEnd: bool)
    requires s.queue != []
    ensures Bag(Advance(s, isEnd).queue) <= Bag(s.queue)
  {
    var q, r := s.queue, Advance(s, isEnd).queue;
    BagOfFront(q);
    BagOfParts(q[1..], [q[0]]);
    assert Keys([q[0]]) == [Key(q[0])];
    if r != q[1..] && r != q[1..] + [q[0]] {
      assert Keys(r) == Keys(q);
    }
  }

  lemma BagOfMarked(s: State, isEnd: bool)
    requires s.queue != []
    ensures Bag(Present(Advance(s, isEnd)).queue) <= Bag(s.queue)
  {
    var advanced := Advance(s, isEnd);
    BagOfAdvanced(s, isEnd);
    assert Keys(Present(advanced).queue) == Keys(advanced.queue);
  }

  lemma BagOfReversed(q: seq<Track>, size: nat)
    requires 3 <= size <= |q|
    ensures Bag([q[0]] + Reversed(q[1..size])) <= Bag(q)
  {
    QueueLaws.ReversedContents(q[1..size]);
    assert q == [q[0]] + q[1..size] + q[size..];
    BagOfSome([q[0]] + Reversed(q[1..size]), q);
  }

  lemma BagOfRemoved(s: State, pos: nat, n: nat)
    ensures Bag(RemoveFrom(s, pos, n).queue) <= Bag(s.queue)
  {
    var q := s.queue;
    if pos + n <= |q| {
      assert q == q[..pos] + q[pos..pos + n] + q[pos + n..];
      BagOfSome(q[..pos] + q[pos + n..], q);
    }
  }

  lemma BagOfPrevious(s: State)
    ensures Bag(PreviousOf(s).queue) <= Bag(SettleFront(s.queue))
  {
    var q := SettleFront(s.queue);
    if q != [] {
      var n := |q| - 1;
      assert q == q[..n] + [q[n]];
      BagOfSome([q[n]] + q[..n], q);
    }
  }

  lemma BagOfAdded(s: State, track: Track, top: bool, slip: int)
    ensures Bag(Add(s, track, top, slip).queue) <= Bag(s.queue) + multiset{Key(track)}
  {
    var q, r := s.queue, Add(s, track, top, slip).queue;
    assert slip > 1 && |q| > slip ==> q == q[..slip] + q[slip..];
    assert multiset(r) == multiset(q + [track]);
    BagOfSome(r, q + [track]);
    BagOfParts(q, [track]);
    assert Keys([track]) == [Key(track)];
  }

  lemma BagOfReverse(r: State, size: nat)
    ensures Bag(ReverseRest(r, size).state.queue) <= Bag(r.queue)
  {
    if 3 <= size <= |r.queue| {
      BagOfReversed(r.queue, size);
    }
  }

  lemma BagOfSkip(r: State, amount: int, remove: bool, popCurrent: bool, pushBack: bool)
    ensures Bag(SkipFromFront(r, amount, remove, popCurrent, pushBack).1.queue) <= Bag(SettleFront(r.queue))
  {
    BagOfSkipped(SettleFront(r.queue), Rounds(r, amount, popCurrent), Requeues(r, remove, pushBack));
  }

  lemma BagOfClear(r: State, user: nat)
    ensures Bag(RemoveByUser(r, user).queue) <= Bag(r.queue)
  {
    if r.queue != [] {
      BagOfCleared(r.queue, user);
    }
  }

  lemma BagOfMarker(s: State, isEnd: bool)
    requires OffsetOk(s) && Bag(Reset(s).queue) <= Bag(s.queue)
    ensures Bag(Marker(s, isEnd).queue) <= Bag(s.queue)
  {
    if s.queue != [] {
      BagOfMarked(Reset(s), isEnd);
    }
  }

  lemma BagOfShuffle(s: State, draws: seq<nat>)
    requires OffsetOk(s) && |draws| >= |s.queue|
    ensures Bag(Shuffle(s, draws).queue) <= Bag(s.queue)
  {
    if 3 <= |s.queue| {
      QueueLaws.ShufflePermutes(s, draws);
      BagOfSome(Shuffle(s, draws).queue, s.queue);
    }
  }

  lemma BagOfMove(s: State, from: int, target: int)
    ensures Bag(Move(s, from, target).queue) <= Bag(s.queue)
  {
    if |s.queue| >= 3 {
      QueueLaws.MoveMovesOne(s, from, target);
      BagOfSome(Move(s, from, target).queue, s.queue);
    }
  }

  lemma BagOfSkipping(s: State, amount: int, remove: bool, popCurrent: bool, pushBack: bool)
    requires OffsetOk(s)
    ensures Bag(Skip(s, amount, remove, popCurrent, pushBack).1.queue) <= Bag(s.queue)
  {
    BagOfReset(s);
    BagOfSkip(Reset(s), amount, remove, popCurrent, pushBack);
  }

  lemma BagOfRemoving(s: State, pos: nat, amount: nat, to: nat)
    requires OffsetOk(s)
    ensures Bag(Remove(s, pos, amount, to).queue) <= Bag(s.queue)
  {
    BagOfReset(s);
    BagOfRemoved(Reset(s), pos, Removable(|s.queue|, pos, amount, to));
  }

  lemma BagOfReversing(s: State, size: nat)
    requires OffsetOk(s)
    ensures Bag(ReverseQueue(s, size).state.queue) <= Bag(s.queue)
  {
    BagOfReset(s);
    BagOfReverse(Reset(s), size);
  }

  lemma BagOfGoingBack(s: State)
    requires OffsetOk(s)
    ensures Bag(Previous(s).queue) <= Bag(s.queue)
  {
    BagOfReset(s);
    BagOfPrevious(Reset(s));
  }

  /** No operation makes up or duplicates a track. */
  lemma BagAfter(s: State, op: Operation)
    requires OffsetOk(s)
    ensures Bag(Apply(s, op).queue) <= Bag(s.queue) + if op.AddTrack? then multiset{Key(op.track)} else multiset{}
  {
    match op
    case AddTrack(track, top, slip) => BagOfAdded(s, track, top, slip);
    case SkipTracks(amount, remove, popCurrent, pushBack) => BagOfSkipping(s, amount, remove, popCurrent, pushBack);
    case RemoveTracks(pos, count, end) => BagOfRemoving(s, pos, count, end);
    case ClearUser(user) => BagOfReset(s); BagOfClear(Reset(s), user);
    case HandleMarker(isEnd) => BagOfReset(s); BagOfMarker(s, isEnd);
    case MoveTrack(from, target) => BagOfMove(s, from, target);
    case ReverseOrder(size) => BagOfReversing(s, size);
    case ShuffleOrder(draws) => if |draws| >= |s.queue| { BagOfShuffle(s, draws); }
    case GoBack => BagOfGoingBack(s);
  }

  /** Whatever happens to a player, its queue holds each track at most as often as it
      was there at the start or was added since. */
  lemma {:induction false} QueueComesFromRun(s: State, ops: seq<Operation>)
    requires OffsetOk(s)
    ensures Bag(ApplyAll(s, ops).queue) <= Bag(s.queue + Added(ops))
    decreases |ops|
  {
    BagOfParts(s.queue, Added(ops));
    if ops != [] {
      var added := if ops[0].AddTrack? then [ops[0].track] else [];
      BagOfParts(added, Added(ops[1..]));
      assert Bag(added) == if ops[0].AddTrack? then multiset{Key(ops[0].track)} else multiset{} by {
        assert Keys(added) == if ops[0].AddTrack? then [Key(ops[0].track)] else [];
      }
      OffsetKept(s, ops[0]);
      BagAfter(s, ops[0]);
      var next := Apply(s, ops[0]);
      QueueComesFromRun(next, ops[1..]);
      BagOfParts(next.queue, Added(ops[1..]));
    }
  }
}
