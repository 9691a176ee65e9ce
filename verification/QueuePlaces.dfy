/** Which track comes where under each operation on a queue, and what else the marker
    does to the tracks. */
module QueuePlaces {
  import opened MachineWords
  import opened Sequences
  import opened PlayerState
  import QueueLaws
  import GuildPlayer

  // --------------------------------------------------------------------- adding

  /** Where an added track goes: to the front, to its slip if that is inside the queue,
      else to the end. */
  function PlaceOf(size: nat, top: bool, slip: int): (i: nat)
    ensures i <= size
  {
    if top || slip == 1 then 0 else if 1 < slip < size then slip else size
  }

  /** An added track is at its place, and without it the queue is as before. */
  lemma AddedGoesToItsPlace(s: State, track: Track, top: bool, slip: int)
    ensures var i, s' := PlaceOf(|s.queue|, top, slip), Add(s, track, top, slip);
            && i < |s'.queue| && s'.queue[i] == track && Erase(s'.queue, i) == s.queue
            && s'.current == s.current && s'.loopMode == s.loopMode && s'.stopped == s.stopped
  {
  }

  // ------------------------------------------------------------------- removing

  /** The tracks that the remove command takes out begin at `pos`; they end before `to`,
      if that is given and lies behind `pos`, else there are `amount` of them, or as
      many as there are. */
  function LastRemoved(size: nat, pos: nat, amount: nat, to: nat): (end: nat)
    requires pos < size
    ensures pos <= end <= size
  {
    var wanted := if to != SIZE_MAX && pos < to then to else pos + amount;
    if wanted < size then wanted else size
  }

  /** Exactly these leave the reset queue; the others keep their order. */
  lemma RemoveTakesOut(s: State, pos: nat, amount: nat, to: nat)
    requires OffsetOk(s) && 0 < pos < |s.queue| && (amount > 0 || to != SIZE_MAX)
    ensures var r, end := Reset(s).queue, LastRemoved(|s.queue|, pos, amount, to);
            var q := Remove(s, pos, amount, to).queue;
            && |q| == |r| - (end - pos)
            && (forall i | 0 <= i < |q| :: q[i] == if i < pos then r[i] else r[i + (end - pos)])
  {
  }

  /** Nothing leaves when no position inside the queue, or nothing at all, is asked for;
      the front track never does. */
  lemma RemoveTakesNothing(s: State, pos: nat, amount: nat, to: nat)
    requires OffsetOk(s) && (pos == 0 || pos >= |s.queue| || (amount == 0 && to == SIZE_MAX))
    ensures var s' := Remove(s, pos, amount, to); s' == s || s' == Reset(s)
  {
  }

  /** Removing a user's tracks moves each other track forward by as many as are removed
      before it. */
  lemma {:induction false} NotOfPlaces(q: seq<Track>, user: nat, i: nat)
    requires i < |q| && q[i].userId != user
    ensures var p := i - QueueLaws.CountOf(q[..i], user);
            0 <= p < |NotOf(q, user)| && NotOf(q, user)[p] == q[i]
  {
    if i == 0 {
      assert q[..0] == [];
    } else {
      assert q[..i][0] == q[0] && q[..i][1..] == q[1..][..i - 1];
      NotOfPlaces(q[1..], user, i - 1);
    }
  }

  lemma RemoveByUserPlaces(s: State, user: nat, i: nat)
    requires user != 0 && 0 < i < |s.queue| && s.queue[i].userId != user
    ensures var p := i - QueueLaws.CountOf(s.queue[1..i], user);
            0 < p < |RemoveByUser(s, user).queue| && RemoveByUser(s, user).queue[p] == s.queue[i]
    ensures |RemoveByUser(s, user).queue| == |s.queue| - QueueLaws.CountOf(s.queue[1..], user)
  {
    var rest := s.queue[1..];
    NotOfPlaces(rest, user, i - 1);
    QueueLaws.NotOfLength(rest, user);
    assert rest[..i - 1] == s.queue[1..i];
  }

  // ------------------------------------------------------------------- skipping

  /** The same track, apart from its repeats. */
  predicate SameButRepeat(t: Track, u: Track) {
    t == u.(repeat := t.repeat)
  }

  /** How many tracks a skip takes off, as its caller sees it: `amount`, at least 1 and
      at most 1000, and one less unless the current track is to go too, or a song is
      looped. */
  function Skips(amount: int, popCurrent: bool, mode: LoopMode): nat {
    var n := if amount < 1 then 1 else if amount > 1000 then 1000 else amount;
    if popCurrent || mode == LoopSong || mode == LoopSongQueue then n else n - 1
  }

  /** Whether it puts them back: asked to, or looping a queue, and not removing. */
  predicate PutsBack(remove: bool, pushBack: bool, mode: LoopMode) {
    !remove && (pushBack || mode == LoopQueue || mode == LoopSongQueue)
  }

  /** `taken` and `left` are `r` gone round by `k` tracks. */
  ghost predicate GoneRound(r: seq<Track>, k: nat, taken: seq<Track>, left: seq<Track>)
    requires r != []
  {
    && |taken| == k && |left| == |r|
    && (forall i | 0 <= i < k :: SameButRepeat(taken[i], r[i % |r|]))
    && (forall i | 0 <= i < |r| :: SameButRepeat(left[i], r[(k + i) % |r|]))
  }

  lemma RoundsGoRound(r: seq<Track>, k: nat, taken: seq<Track>, left: seq<Track>)
    requires r != [] && QueueLaws.CyclesThrough(SettleFront(r), k, taken, left)
    ensures GoneRound(r, k, taken, left)
  {
    var n := |r|;
    forall i | 0 <= i < k ensures SameButRepeat(taken[i], r[i % n]) {
      QueueLaws.WrapIsModulo(i, n);
      assert 0 + i == i;
      AfterIsSame(r, i, QueueLaws.Wrap(i, n));
    }
    forall i | 0 <= i < n ensures SameButRepeat(left[i], r[(k + i) % n]) {
      QueueLaws.WrapIsModulo(k + i, n);
      AfterIsSame(r, k, QueueLaws.Wrap(k + i, n));
    }
  }

  /** A skip that puts back: the queue goes round by as many tracks as are skipped. */
  lemma SkipGoesRound(s: State, amount: int, remove: bool, popCurrent: bool, pushBack: bool)
    requires OffsetOk(s) && s.queue != [] && PutsBack(remove, pushBack, s.loopMode)
    ensures var (taken, s') := Skip(s, amount, remove, popCurrent, pushBack);
            GoneRound(Reset(s).queue, Skips(amount, popCurrent, s.loopMode), taken, s'.queue)
  {
    QueueLaws.SkipRotates(s, amount, remove, popCurrent, pushBack);
    var (taken, s') := Skip(s, amount, remove, popCurrent, pushBack);
    RoundsGoRound(Reset(s).queue, Skips(amount, popCurrent, s.loopMode), taken, s'.queue);
  }

  lemma AfterIsSame(r: seq<Track>, j: nat, p: nat)
    requires p < |r|
    ensures SameButRepeat(QueueLaws.After(SettleFront(r), j, p), r[p])
  {
  }

  /** One that does not: the first tracks are returned, the others stay. */
  lemma SkipTakesOff(s: State, amount: int, remove: bool, popCurrent: bool, pushBack: bool)
    requires OffsetOk(s) && !PutsBack(remove, pushBack, s.loopMode)
    ensures var r, k := Reset(s).queue, Skips(amount, popCurrent, s.loopMode);
            var (taken, s') := Skip(s, amount, remove, popCurrent, pushBack);
            && |taken| == (if k < |r| then k else |r|) && |taken| + |s'.queue| == |r|
            && (forall i | 0 <= i < |taken| :: SameButRepeat(taken[i], r[i]))
            && (forall i | 0 <= i < |s'.queue| :: SameButRepeat(s'.queue[i], r[|taken| + i]))
  {
    QueueLaws.SkipTakesPrefix(s, amount, remove, popCurrent, pushBack);
    var (taken, s') := Skip(s, amount, remove, popCurrent, pushBack);
    var q := taken + s'.queue;
    assert forall i | 0 <= i < |taken| :: taken[i] == q[i];
    assert forall i | 0 <= i < |s'.queue| :: s'.queue[i] == q[|taken| + i];
  }

  /** Either way the current track repeats no more, nor does the front one before it is
      taken off or put back. */
  lemma SkipEndsRepeats(s: State, amount: int, remove: bool, popCurrent: bool, pushBack: bool)
    requires OffsetOk(s)
    ensures var (taken, s') := Skip(s, amount, remove, popCurrent, pushBack);
            && s'.shifted == 0 && s'.loopMode == s.loopMode && s'.stopped == s.stopped
            && SameButRepeat(s'.current, s.current) && (s.current.filename != "" ==> s'.current.repeat == 0)
            && (taken != [] ==> taken[0].repeat == 0)
            && (taken == [] && s'.queue != [] ==> s'.queue[0].repeat == 0)
  {
  }

  /** Going back: the last track of the reset queue comes to its front. */
  lemma PreviousPlaces(s: State)
    requires OffsetOk(s)
    ensures var r, s' := Reset(s).queue, Previous(s);
            && |s'.queue| == |r| && s'.shifted == 0 && s'.loopMode == s.loopMode && s'.stopped == s.stopped
            && SameButRepeat(s'.current, s.current) && (s.current.filename != "" ==> s'.current.repeat == 0)
            && (forall i | 0 <= i < |r| :: SameButRepeat(s'.queue[i], r[if i == 0 then |r| - 1 else i - 1]))
  {
  }

  // ----------------------------------------------------------------- reordering

  function Clamped(x: int, size: nat): nat
    requires size >= 3
  {
    if x < 1 then 1 else if x > size - 1 then size - 1 else x
  }

  /** The move command takes the track at the one position to the other, both moved
      into the queue behind its front; the others close up in their order. */
  lemma MoveGoesToTarget(s: State, from: int, to: int)
    requires |s.queue| >= 3
    ensures var f, t, q := Clamped(from, |s.queue|), Clamped(to, |s.queue|), Move(s, from, to).queue;
            |q| == |s.queue| && q[t] == s.queue[f] && Erase(q, t) == Erase(s.queue, f)
  {
    QueueLaws.MoveMovesOne(s, from, to);
  }

  lemma ShortQueuesStay(s: State, from: int, to: int, draws: seq<nat>)
    requires OffsetOk(s) && |s.queue| < 3 && |draws| >= |s.queue|
    ensures Move(s, from, to) == s && Shuffle(s, draws) == s
  {
  }

  /** Reversing throws exactly when it measured at least three tracks and more than
      there are; below three it only resets. */
  lemma ReverseThrowsExactly(s: State, size: nat)
    requires OffsetOk(s)
    ensures ReverseQueue(s, size).Thrown? <==> size >= 3 && size > |s.queue|
    ensures size < 3 ==> ReverseQueue(s, size) == Done(Reset(s))
  {
  }

  /** Each draw of a shuffle takes the track at the random number modulo those left. */
  lemma DrawTakes<T>(pool: seq<T>, draws: seq<nat>)
    requires pool != [] && |draws| >= |pool|
    ensures var r := draws[0] % |pool|;
            0 <= r < |pool| && Drawn(pool, draws) == [pool[r]] + Drawn(Erase(pool, r), draws[1..])
  {
    GuildPlayer.DrawFirst(pool, draws);
  }

  // -------------------------------------------------------------------- fetching

  function CountTrue(flags: seq<bool>): nat {
    if flags == [] then 0 else (if flags[0] then 1 else 0) + CountTrue(flags[1..])
  }

  /** Exactly the tracks whose details could be had are loaded, each behind those that
      could be had before it. */
  lemma {:induction false} FetchedPlaces(tracks: seq<Track>, fetched: seq<bool>, i: nat)
    requires |fetched| == |tracks|
    ensures |Fetched(tracks, fetched)| == CountTrue(fetched)
    ensures i < |tracks| && fetched[i] ==>
              var p := CountTrue(fetched[..i]);
              p < |Fetched(tracks, fetched)| && Fetched(tracks, fetched)[p] == tracks[i]
  {
    if tracks != [] {
      FetchedPlaces(tracks[1..], fetched[1..], if i > 0 then i - 1 else 0);
      if 0 < i < |tracks| {
        assert fetched[..i][1..] == fetched[1..][..i - 1] && fetched[..i][0] == fetched[0];
      } else {
        assert fetched[..0] == [];
      }
    }
  }

  // --------------------------------------------------------------------- markers

  /** A start marker plays the front track of the reset queue: with the position asked
      for and without votes; that position is then used up, and nothing else about
      any track changes. */
  lemma StartMarkerPresents(s: State, isEnd: bool)
    requires OffsetOk(s) && s.queue != [] && (isEnd ==> s.stopped)
    ensures var r := Reset(s).queue;
            Marker(s, isEnd) == State([r[0].(skipVote := [], seekTo := "")] + r[1..], 0,
                                      r[0].(skipVote := []), s.loopMode, false)
  {
  }

  /** The queue that the end of a track leaves, by loop mode, when the track has no
      repeats left. */
  function NextQueue(r: seq<Track>, mode: LoopMode): seq<Track>
    requires r != []
  {
    match mode
    case NoLoop => r[1..]
    case LoopQueue => r[1..] + [r[0]]
    case LoopSong => r
    case LoopSongQueue => r
  }

  /** The end of the current track, without repeats: the queue moves on and a start
      marker is handled, or nothing is left. */
  lemma EndMarkerMovesOn(s: State)
    requires OffsetOk(s) && s.queue != [] && !s.stopped
    requires s.current.filename == Reset(s).queue[0].filename
    requires s.current.repeat <= 0 || Reset(s).queue[0].repeat <= 0
    ensures var q := NextQueue(Reset(s).queue, s.loopMode);
            if q == [] then Marker(s, true) == State([], 0, NO_TRACK, s.loopMode, false)
            else Marker(s, true) == Marker(State(q, 0, s.current, s.loopMode, false), false)
  {
  }

  /** With repeats, it is played again with one less. */
  lemma EndMarkerRepeats(s: State)
    requires OffsetOk(s) && s.queue != [] && !s.stopped
    requires s.current.filename == Reset(s).queue[0].filename && s.current.repeat > 0 && Reset(s).queue[0].repeat > 0
    ensures var r := Reset(s).queue;
            Marker(s, true) == Marker(State([r[0].(repeat := s.current.repeat - 1)] + r[1..], 0,
                                            s.current, s.loopMode, false), false)
  {
  }

  /** When another track is in front, that one is played; an empty queue stays. */
  lemma EndMarkerOfAnother(s: State)
    requires OffsetOk(s)
    ensures s.queue == [] ==> Marker(s, true) == s
    ensures s.queue != [] && s.current.filename != Reset(s).queue[0].filename ==> Marker(s, true) == Marker(s, false)
  {
  }
}
