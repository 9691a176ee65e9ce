/** Whole runs of a player: which track is current after each end-of-track marker,
    in each loop mode, whatever streaming does to positions and seek queries in
    between. */
module PlaybackRuns {
  import opened PlayerState
  import opened QueueLaws

  /** What identifies a track, apart from how its playback stands. */
  function Key(t: Track): Track {
    t.(repeat := 0, currentByte := 0, seekTo := "", skipVote := [])
  }

  function Keys(q: seq<Track>): (keys: seq<Track>)
    ensures |keys| == |q|
    ensures forall i | 0 <= i < |q| :: keys[i] == Key(q[i])
  {
    seq(|q|, i requires 0 <= i < |q| => Key(q[i]))
  }

  /** The same track with the same number of repeats left. */
  predicate Alike(t: Track, u: Track) {
    Key(t) == Key(u) && t.repeat == u.repeat
  }

  /** Streaming may have turned player `a` into `b`. */
  ghost predicate Streams(a: State, b: State) {
    && b == a.(queue := b.queue, current := b.current)
    && Alike(a.current, b.current)
    && |a.queue| == |b.queue|
    && (forall i | 0 <= i < |a.queue| :: Alike(a.queue[i], b.queue[i]))
  }

  /** The front track is the current one. */
  ghost predicate InPlay(s: State) {
    s.queue != [] && s.shifted == 0 && !s.stopped && Alike(s.current, s.queue[0])
  }

  /** States at successive `e` markers, with streaming in between. */
  ghost predicate IsRun(trace: seq<State>) {
    && trace != [] && InPlay(trace[0])
    && (forall m | 0 <= m < |trace| :: OffsetOk(trace[m]))
    && (forall m | 1 <= m < |trace| :: Streams(Marker(trace[m - 1], true), trace[m]))
  }

  /** A start marker puts the front track in play. */
  lemma StartMarker(s: State, isEnd: bool)
    requires OffsetOk(s) && s.queue != [] && (isEnd ==> s.stopped)
    ensures InPlay(Marker(s, isEnd))
    ensures Keys(Marker(s, isEnd).queue) == Keys(Reset(s).queue)
    ensures Plays(Marker(s, isEnd).queue) == Plays(Reset(s).queue)
  {
    var r, s' := Reset(s), Marker(s, isEnd);
    PlaysOfAlike(r.queue, s'.queue);
  }

  function Times(t: Track, n: nat): seq<Track> {
    if n == 0 then [] else [t] + Times(t, n - 1)
  }

  function Repeats(t: Track): nat {
    if t.repeat > 0 then t.repeat else 0
  }

  /** The plays a queue asks for: each track once more than it is to be repeated. */
  function Plays(q: seq<Track>): seq<Track> {
    if q == [] then [] else Times(Key(q[0]), Repeats(q[0]) + 1) + Plays(q[1..])
  }

  function TotalPlays(q: seq<Track>): nat {
    if q == [] then 0 else Repeats(q[0]) + 1 + TotalPlays(q[1..])
  }

  lemma {:induction false} TimesLength(t: Track, n: nat)
    ensures |Times(t, n)| == n
  {
    if n > 0 { TimesLength(t, n - 1); }
  }

  lemma {:induction false} PlaysLength(q: seq<Track>)
    ensures |Plays(q)| == TotalPlays(q)
  {
    if q != [] {
      TimesLength(Key(q[0]), Repeats(q[0]) + 1);
      PlaysLength(q[1..]);
    }
  }

  lemma {:induction false} PlaysOfAlike(a: seq<Track>, b: seq<Track>)
    requires |a| == |b| && forall i | 0 <= i < |a| :: Alike(a[i], b[i])
    ensures Plays(a) == Plays(b) && Keys(a) == Keys(b)
  {
    if a != [] {
      PlaysOfAlike(a[1..], b[1..]);
    }
  }

  lemma PlaysOf(q: seq<Track>)
    requires q != []
    ensures Plays(q) == [Key(q[0])] + (Times(Key(q[0]), Repeats(q[0])) + Plays(q[1..]))
  {
    var k, n := Key(q[0]), Repeats(q[0]);
    assert Times(k, n + 1) == [k] + Times(k, n);
    assert [k] + Times(k, n) + Plays(q[1..]) == [k] + (Times(k, n) + Plays(q[1..]));
  }

  /** What is left to play once the front track has played once. */
  lemma PlayFront(q: seq<Track>)
    requires q != []
    ensures Plays(q) != [] && Plays(q)[0] == Key(q[0])
    ensures q[0].repeat <= 0 ==> Plays(q)[1..] == Plays(q[1..])
  {
    PlaysOf(q);
    assert Plays(q)[1..] == Times(Key(q[0]), Repeats(q[0])) + Plays(q[1..]);
    assert Times(Key(q[0]), 0) + Plays(q[1..]) == Plays(q[1..]);
  }

  /** When it has repeats left, it stays in front with one less. */
  lemma PlayAgain(q: seq<Track>, t: Track)
    requires q != [] && q[0].repeat > 0 && Key(t) == Key(q[0]) && t.repeat == q[0].repeat - 1
    ensures Plays([t] + q[1..]) == Plays(q)[1..]
  {
    PlaysOf(q);
    assert ([t] + q[1..])[1..] == q[1..];
    assert Repeats(t) + 1 == Repeats(q[0]);
  }

  // -------------------------------------------------------------- not looping

  /** One `e` marker plays the next of the plays asked for. */
  lemma NoLoopStep(s: State)
    requires InPlay(s) && s.loopMode == NoLoop
    ensures var s' := Marker(s, true);
            && Plays(s.queue) != [] && Key(s.current) == Plays(s.queue)[0]
            && Plays(s'.queue) == Plays(s.queue)[1..]
            && s'.loopMode == NoLoop
            && (if s'.queue == [] then s'.current == NO_TRACK && s'.shifted == 0 else InPlay(s'))
  {
    PlayFront(s.queue);
    var advanced, s' := Advance(s, true), Marker(s, true);
    if s.queue[0].repeat > 0 {
      PlayAgain(s.queue, advanced.queue[0]);
    }
    PlaysOfAlike(advanced.queue, s'.queue);
  }

  lemma StreamKeepsPlay(a: State, b: State)
    requires Streams(a, b)
    ensures InPlay(a) ==> InPlay(b)
    ensures Plays(b.queue) == Plays(a.queue) && Keys(b.queue) == Keys(a.queue)
  {
    PlaysOfAlike(a.queue, b.queue);
  }

  /** Not looping, the current track at marker `m` is the `m`-th of the plays the
      queue asked for at the start, and the queue empties at the marker after the
      last of them and at none before. */
  lemma {:induction false} NoLoopRun(trace: seq<State>, m: nat)
    requires IsRun(trace) && trace[0].loopMode == NoLoop
    requires m < |trace| && m <= TotalPlays(trace[0].queue)
    ensures |Plays(trace[0].queue)| == TotalPlays(trace[0].queue)
    ensures trace[m].loopMode == NoLoop && Plays(trace[m].queue) == Plays(trace[0].queue)[m..]
    ensures if m < TotalPlays(trace[0].queue)
            then InPlay(trace[m]) && Key(trace[m].current) == Plays(trace[0].queue)[m]
            else trace[m].queue == [] && trace[m].current.filename == ""
  {
    PlaysLength(trace[0].queue);
    if m == 0 {
      PlayFront(trace[0].queue);
    } else {
      NoLoopRun(trace, m - 1);
      NoLoopStep(trace[m - 1]);
      StreamKeepsPlay(Marker(trace[m - 1], true), trace[m]);
      assert Plays(trace[0].queue)[m - 1..][1..] == Plays(trace[0].queue)[m..];
      if trace[m].queue != [] {
        PlayFront(trace[m].queue);
      }
    }
  }

  // -------------------------------------------------------- looping the queue

  function Rotated<T>(q: seq<T>, i: nat): seq<T>
    requires i <= |q|
  {
    q[i..] + q[..i]
  }

  /** The queue has played its first `i` tracks and moved them to its end, and
      still asks for `plays` before it has gone round. */
  ghost predicate RoundAt(s: State, q: seq<Track>, i: nat, plays: seq<Track>) {
    && s.loopMode == LoopQueue && i < |q| == |s.queue|
    && InPlay(s)
    && Keys(s.queue) == Rotated(Keys(q), i)
    && Plays(s.queue[..|q| - i]) == plays
    && (forall j | |q| - i <= j < |q| :: s.queue[j].repeat <= 0)
  }

  /** It has gone round: every track is back in its place with no repeat left. */
  ghost predicate RoundDone(s: State, q: seq<Track>) {
    && s.loopMode == LoopQueue && |s.queue| == |q|
    && InPlay(s)
    && Keys(s.queue) == Keys(q)
    && (forall j | 0 <= j < |q| :: s.queue[j].repeat <= 0)
  }

  lemma RotatedOnce<T>(q: seq<T>, i: nat)
    requires i < |q|
    ensures Rotated(q, i)[0] == q[i]
    ensures Rotated(q, i)[1..] + [q[i]] == Rotated(q, i + 1)
  {
    assert q[i..] == [q[i]] + q[i + 1..];
    assert q[..i + 1] == q[..i] + [q[i]];
    assert Rotated(q, i)[1..] == q[i + 1..] + q[..i];
  }

  lemma LoopStepRepeats(s: State, q: seq<Track>, i: nat, plays: seq<Track>)
    requires RoundAt(s, q, i, plays) && s.queue[0].repeat > 0
    ensures plays != [] && plays[0] == Key(s.current) && RoundAt(Marker(s, true), q, i, plays[1..])
  {
    var s', n := Marker(s, true), |q| - i;
    PlayFront(s.queue[..n]);
    PlayAgain(s.queue[..n], s'.queue[0]);
    assert s'.queue[..n] == [s'.queue[0]] + s.queue[..n][1..];
    assert Keys(s'.queue) == Keys(s.queue);
  }

  lemma KeysMoved(q: seq<Track>)
    requires q != []
    ensures Keys(q[1..] + [q[0]]) == Keys(q)[1..] + [Keys(q)[0]]
  {
  }

  /** The marker takes a track without repeats from the front to the end. */
  lemma LoopMarker(s: State)
    requires InPlay(s) && s.loopMode == LoopQueue && s.queue[0].repeat <= 0
    ensures var s', moved := Marker(s, true), s.queue[1..] + [s.queue[0]];
            && InPlay(s') && s'.loopMode == LoopQueue && |s'.queue| == |moved|
            && (forall j | 0 <= j < |moved| :: Alike(s'.queue[j], moved[j]))
  {
  }

  lemma LoopStepRotates(s: State, q: seq<Track>, i: nat, plays: seq<Track>)
    requires RoundAt(s, q, i, plays) && s.queue[0].repeat <= 0
    ensures plays != [] && plays[0] == Key(s.current)
    ensures var s' := Marker(s, true);
            if i + 1 < |q| then RoundAt(s', q, i + 1, plays[1..]) else RoundDone(s', q) && plays[1..] == []
  {
    LoopMarker(s);
    MovedRound(s, q, i, plays, Marker(s, true));
  }

  lemma MovedRound(s: State, q: seq<Track>, i: nat, plays: seq<Track>, s': State)
    requires RoundAt(s, q, i, plays) && s.queue[0].repeat <= 0
    requires var moved := s.queue[1..] + [s.queue[0]];
             && InPlay(s') && s'.loopMode == LoopQueue && |s'.queue| == |moved|
             && (forall j | 0 <= j < |moved| :: Alike(s'.queue[j], moved[j]))
    ensures plays != [] && plays[0] == Key(s.current)
    ensures if i + 1 < |q| then RoundAt(s', q, i + 1, plays[1..]) else RoundDone(s', q) && plays[1..] == []
  {
    var n, moved := |q| - i, s.queue[1..] + [s.queue[0]];
    PlayFront(s.queue[..n]);
    PlaysOfAlike(s'.queue, moved);
    KeysMoved(s.queue);
    RotatedOnce(Keys(q), i);
    PlaysOfAlike(s'.queue[..n - 1], moved[..n - 1]);
    assert moved[..n - 1] == s.queue[..n][1..];
    if i + 1 == |q| {
      assert Rotated(Keys(q), |q|) == Keys(q);
    }
  }

  lemma StreamKeepsRound(a: State, b: State, q: seq<Track>, i: nat, plays: seq<Track>)
    requires Streams(a, b)
    ensures RoundAt(a, q, i, plays) ==> RoundAt(b, q, i, plays)
    ensures RoundDone(a, q) ==> RoundDone(b, q)
  {
    StreamKeepsPlay(a, b);
    if i < |q| == |a.queue| {
      PlaysOfAlike(a.queue[..|q| - i], b.queue[..|q| - i]);
    }
  }

  /** Looping the queue, one round plays each track as often as it asks for, in
      order, and leaves the queue as it was with no repeat left. */
  lemma {:induction false} LoopQueueRun(trace: seq<State>, m: nat) returns (i: nat)
    requires IsRun(trace) && trace[0].loopMode == LoopQueue
    requires m < |trace| && m <= TotalPlays(trace[0].queue)
    ensures |Plays(trace[0].queue)| == TotalPlays(trace[0].queue)
    ensures if m < TotalPlays(trace[0].queue)
            then RoundAt(trace[m], trace[0].queue, i, Plays(trace[0].queue)[m..])
                 && Key(trace[m].current) == Plays(trace[0].queue)[m]
            else RoundDone(trace[m], trace[0].queue)
  {
    var q := trace[0].queue;
    PlaysLength(q);
    if m == 0 {
      i := 0;
      PlayFront(q);
      assert q[..|q|] == q && Rotated(Keys(q), 0) == Keys(q);
    } else {
      i := LoopQueueRun(trace, m - 1);
      var s, plays := trace[m - 1], Plays(q)[m - 1..];
      assert plays[1..] == Plays(q)[m..];
      if s.queue[0].repeat > 0 {
        LoopStepRepeats(s, q, i, plays);
      } else {
        LoopStepRotates(s, q, i, plays);
        i := i + 1;
      }
      StreamKeepsRound(Marker(s, true), trace[m], q, i, Plays(q)[m..]);
      if m < TotalPlays(q) {
        PlayFront(trace[m].queue[..|q| - i]);
      }
    }
  }

  lemma {:induction false} PlaysOfSingles(q: seq<Track>)
    requires forall i | 0 <= i < |q| :: q[i].repeat <= 0
    ensures Plays(q) == Keys(q) && TotalPlays(q) == |q|
  {
    if q != [] {
      PlaysOfSingles(q[1..]);
      assert Times(Key(q[0]), 1) == [Key(q[0])] + Times(Key(q[0]), 0);
      assert Keys(q) == [Key(q[0])] + Keys(q[1..]);
    }
  }

  /** In particular, without repeats `n` markers play each of `n` tracks once and
      restore the queue. */
  lemma LoopQueueRestores(trace: seq<State>)
    requires IsRun(trace) && trace[0].loopMode == LoopQueue
    requires forall j | 0 <= j < |trace[0].queue| :: trace[0].queue[j].repeat <= 0
    requires |trace| == |trace[0].queue| + 1
    ensures forall m | 0 <= m < |trace[0].queue| :: Key(trace[m].current) == Key(trace[0].queue[m])
    ensures Keys(trace[|trace[0].queue|].queue) == Keys(trace[0].queue)
  {
    var q := trace[0].queue;
    PlaysOfSingles(q);
    forall m | 0 <= m < |q| ensures Key(trace[m].current) == Key(q[m]) {
      var i := LoopQueueRun(trace, m);
    }
    var i := LoopQueueRun(trace, |q|);
  }

  // -------------------------------------------------------- looping the song

  lemma SongStep(s: State)
    requires InPlay(s) && LoopsSong(s.loopMode)
    ensures var s' := Marker(s, true);
            InPlay(s') && s'.loopMode == s.loopMode && Keys(s'.queue) == Keys(s.queue)
  {
    assert Keys(Marker(s, true).queue) == Keys(s.queue);
  }

  /** Looping the song, the current track never changes and no track leaves. */
  lemma {:induction false} LoopSongRun(trace: seq<State>, m: nat)
    requires IsRun(trace) && LoopsSong(trace[0].loopMode) && m < |trace|
    ensures InPlay(trace[m]) && trace[m].loopMode == trace[0].loopMode
    ensures Keys(trace[m].queue) == Keys(trace[0].queue)
    ensures Key(trace[m].current) == Key(trace[0].queue[0])
  {
    if m > 0 {
      LoopSongRun(trace, m - 1);
      SongStep(trace[m - 1]);
      StreamKeepsPlay(Marker(trace[m - 1], true), trace[m]);
    }
    assert Key(trace[m].queue[0]) == Keys(trace[m].queue)[0];
  }
}
