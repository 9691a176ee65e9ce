/** Where the skip and previous commands land once the marker they provoke has been
    handled, in every loop mode. */
module SkipAndPrevious {
  import opened PlayerState
  import opened QueueLaws
  import opened PlaybackRuns

  // ------------------------------------------------------------------ rotations

  /** The queue with its front moved to its end. */
  function RotatedLeft<T>(q: seq<T>): seq<T> {
    if q == [] then [] else q[1..] + [q[0]]
  }

  predicate AllSame(q: seq<Track>) {
    forall i | 0 <= i < |q| :: q[i] == q[0]
  }

  lemma {:induction false} WrapOfSum(k: nat, i: nat, n: nat)
    requires n > 0
    ensures Wrap(k + i, n) == Wrap(Wrap(k, n) + i, n)
    decreases k
  {
    if k >= n {
      assert k + i - n == k - n + i;
      WrapOfSum(k - n, i, n);
    }
  }

  /** Element `i` of a rotated queue. */
  lemma RotatedAt<T>(q: seq<T>, k: nat, i: nat)
    requires i < |q|
    ensures Rotated(q, Wrap(k, |q|))[i] == q[Wrap(k + i, |q|)]
  {
    var n, w := |q|, Wrap(k, |q|);
    WrapOfSum(k, i, n);
    if w + i >= n {
      assert Wrap(w + i, n) == w + i - n;
    }
  }

  lemma RotatedNext<T>(q: seq<T>, k: nat)
    requires q != []
    ensures Rotated(q, Wrap(k + 1, |q|)) == RotatedLeft(Rotated(q, Wrap(k, |q|)))
  {
    var n, w := |q|, Wrap(k, |q|);
    WrapOfSum(k, 1, n);
    RotatedOnce(q, w);
    if w + 1 == n {
      assert Wrap(w + 1, n) == 0 && Rotated(q, n) == Rotated(q, 0);
    }
  }

  /** Moving the front to the end changes nothing exactly when all are the same. */
  lemma RotatedLeftSame(q: seq<Track>)
    ensures RotatedLeft(q) == q <==> AllSame(q)
  {
    if q != [] && RotatedLeft(q) == q {
      forall i: nat | i < |q| ensures q[i] == q[0] {
        SameUpTo(q, i);
      }
    }
  }

  lemma {:induction false} SameUpTo(q: seq<Track>, i: nat)
    requires i < |q| && RotatedLeft(q) == q
    ensures q[i] == q[0]
  {
    if i > 0 {
      SameUpTo(q, i - 1);
      assert RotatedLeft(q)[i - 1] == q[i];
    }
  }

  lemma SameWhenRotated(q: seq<Track>, i: nat)
    requires i <= |q|
    ensures AllSame(Rotated(q, i)) <==> AllSame(q)
  {
    var r := Rotated(q, i);
    if AllSame(r) {
      forall j | 0 <= j < |q| ensures q[j] == q[0] {
        assert q[j] == r[if j >= i then j - i else j + |q| - i];
        assert q[0] == r[if i == 0 then 0 else |q| - i];
      }
    }
    if AllSame(q) {
      forall j | 0 <= j < |q| ensures r[j] == r[0] {
        assert r[j] == q[if j < |q| - i then j + i else j - (|q| - i)];
      }
    }
  }

  // ------------------------------------------------- skipping, and its marker

  /** The skip command and the `e` marker that follows it. */
  function SkipCommand(s: State, amount: int, remove: bool): State
    requires OffsetOk(s)
  {
    Marker(Skip(s, amount, remove, false, false).1, true)
  }

  /** What skipping `k` tracks leaves of a queue. */
  function Left<T>(q: seq<T>, k: nat, requeue: bool): seq<T> {
    if requeue && q != [] then Rotated(q, Wrap(k, |q|)) else q[if k < |q| then k else |q|..]
  }

  /** What an `e` marker makes of a queue, when the current track repeats no more. */
  function AfterMarker(q: seq<Track>, current: Track, mode: LoopMode): seq<Track> {
    if q == [] || q[0].filename != current.filename then q
    else
      match mode
      case NoLoop => q[1..]
      case LoopQueue => RotatedLeft(q)
      case LoopSong => q
      case LoopSongQueue => q
  }

  lemma SkipKeys(s: State, amount: int, remove: bool)
    requires InPlay(s)
    ensures Keys(Skip(s, amount, remove, false, false).1.queue)
         == Left(Keys(s.queue), Rounds(s, amount, false), Requeues(s, remove, false))
  {
    var q, k := SettleFront(s.queue), Rounds(s, amount, false);
    assert Reset(s) == s && Keys(q) == Keys(s.queue);
    if Requeues(s, remove, false) {
      RoundsCycle(q, k);
      CycledKeys(q, k, Skipped(q, k, true).1);
    } else {
      SkippedPrefix(q, k);
      assert Keys(q[if k < |q| then k else |q|..]) == Left(Keys(q), k, false);
    }
  }

  lemma CycledKeys(q: seq<Track>, k: nat, left: seq<Track>)
    requires q != [] && RotatedBy(q, k, left)
    ensures Keys(left) == Left(Keys(q), k, true)
  {
    forall i | 0 <= i < |q| ensures Keys(left)[i] == Left(Keys(q), k, true)[i] {
      RotatedAt(Keys(q), k, i);
    }
  }

  /** The marker makes the front track current, after taking it off or moving it back
      if it has the file of the current one. */
  lemma MarkerKeys(s: State)
    requires s.queue != [] && s.shifted == 0 && !s.stopped && s.current.repeat <= 0
    ensures var s' := Marker(s, true);
            && Keys(s'.queue) == AfterMarker(Keys(s.queue), s.current, s.loopMode)
            && (if s'.queue == [] then s'.current == NO_TRACK else InPlay(s'))
  {
    var advanced, s' := Advance(s, true), Marker(s, true);
    assert Keys(s'.queue) == Keys(advanced.queue);
    assert Keys(s.queue)[0].filename == s.queue[0].filename;
    if s.loopMode == LoopQueue {
      KeysMoved(s.queue);
    } else if s.loopMode == NoLoop {
      assert Keys(s.queue[1..]) == Keys(s.queue)[1..];
    }
  }

  /** Player `s'` is where the marker leaves it that finds `left` of queue `q`, when
      `current` was current: its front is current, and if the marker found nothing,
      so is the former track. */
  ghost predicate Landed(s': State, q: seq<Track>, left: seq<Track>, current: Track, mode: LoopMode)
    requires q != []
  {
    && Keys(s'.queue) == AfterMarker(left, q[0], mode)
    && (if left == [] then Key(s'.current) == Key(current)
        else if s'.queue == [] then s'.current == NO_TRACK
        else InPlay(s'))
  }

  lemma SkipLandsFromFront(s: State, amount: int, remove: bool)
    requires InPlay(s) && s.current.filename != ""
    ensures Landed(SkipCommand(s, amount, remove), s.queue,
                   Left(Keys(s.queue), Rounds(s, amount, false), Requeues(s, remove, false)), s.current, s.loopMode)
  {
    SkipKeys(s, amount, remove);
    var s1 := Skip(s, amount, remove, false, false).1;
    assert s1.current == Settled(s.current) && Key(s.current).filename == Key(s.queue[0]).filename;
    if s1.queue != [] {
      MarkerKeys(s1);
    } else {
      assert Keys(s1.queue) == [];
    }
  }

  /** The current track is the one that the offset points to. */
  ghost predicate Current(s: State) {
    OffsetOk(s) && InPlay(Reset(s)) && s.current.filename != ""
  }

  /** Both commands begin with a reset. */
  lemma CommandsResetFirst(s: State, amount: int, remove: bool)
    requires OffsetOk(s)
    ensures SkipCommand(s, amount, remove) == SkipCommand(Reset(s), amount, remove)
    ensures PreviousCommand(s) == PreviousCommand(Reset(s))
  {
    assert Reset(Reset(s)) == Reset(s);
  }

  lemma ResetKeepsMode(s: State, amount: int, remove: bool)
    requires OffsetOk(s)
    ensures var r := Reset(s);
            && r.current == s.current && r.loopMode == s.loopMode
            && Rounds(r, amount, false) == Rounds(s, amount, false)
            && Requeues(r, remove, false) == Requeues(s, remove, false)
  {
  }

  /** Where skipping lands: the marker finds what the skip left of the reset queue and
      passes over its front track once more if that has the file of the track
      skipped.  Skipping past the end of the queue leaves nothing, not even a track
      to make current. */
  lemma SkipLands(s: State, amount: int, remove: bool)
    requires Current(s)
    ensures var q := Reset(s).queue;
            var left := Left(Keys(q), Rounds(s, amount, false), Requeues(s, remove, false));
            Landed(SkipCommand(s, amount, remove), q, left, s.current, s.loopMode)
  {
    CommandsResetFirst(s, amount, remove);
    ResetKeepsMode(s, amount, remove);
    SkipLandsFromFront(Reset(s), amount, remove);
  }

  /** The track that `k` rounds bring to the front has the file of the current one. */
  predicate SameFileAt(q: seq<Track>, k: nat)
    requires q != []
  {
    q[Wrap(k, |q|)].filename == q[0].filename
  }

  lemma MarkerAdvancesWhenRequeued(q: seq<Track>, keys: seq<Track>, k: nat)
    requires q != [] && keys == Keys(q)
    ensures AfterMarker(Left(keys, k, true), q[0], LoopQueue) == Left(keys, k + 1, true) <==> SameFileAt(q, k)
  {
    var left := Left(keys, k, true);
    RotatedAt(keys, k, 0);
    RotatedNext(keys, k);
    assert left[0].filename == q[Wrap(k, |q|)].filename;
    if !SameFileAt(q, k) && left == Left(keys, k + 1, true) {
      RotatedLeftSame(left);
      SameWhenRotated(keys, Wrap(k, |q|));
      assert false;
    }
  }

  lemma MarkerAdvancesWhenTaken(q: seq<Track>, keys: seq<Track>, k: nat, mode: LoopMode)
    requires q != [] && keys == Keys(q) && (mode == NoLoop || mode == LoopQueue)
    ensures AfterMarker(Left(keys, k, false), q[0], mode) == Left(keys, k + 1, false)
       <==> k >= |q| || (mode == NoLoop && SameFileAt(q, k))
  {
    var left := Left(keys, k, false);
    if k < |q| {
      assert Wrap(k, |q|) == k && left[0].filename == q[k].filename;
      assert |Left(keys, k + 1, false)| == |left| - 1;
      assert left[1..] == Left(keys, k + 1, false);
    }
  }

  /** When skipping `n` tracks advances the queue by `n`. */
  predicate Advances(q: seq<Track>, n: nat, requeue: bool, mode: LoopMode)
    requires q != [] && n >= 1
  {
    || LoopsSong(mode)
    || (requeue && SameFileAt(q, n - 1))
    || (!requeue && (n > |q| || (mode == NoLoop && SameFileAt(q, n - 1))))
  }

  lemma MarkerAdvancesExactly(q: seq<Track>, k: nat, n: nat, requeue: bool, mode: LoopMode)
    requires q != [] && n >= 1 && (requeue ==> mode == LoopQueue || mode == LoopSongQueue)
    requires k == if LoopsSong(mode) then n else n - 1
    ensures AfterMarker(Left(Keys(q), k, requeue), q[0], mode) == Left(Keys(q), n, requeue)
       <==> Advances(q, n, requeue, mode)
  {
    if !LoopsSong(mode) {
      if requeue {
        MarkerAdvancesWhenRequeued(q, Keys(q), k);
      } else {
        MarkerAdvancesWhenTaken(q, Keys(q), k, mode);
      }
    }
  }

  /** Skipping `n` tracks advances the queue by `n` exactly when a song is looped, or
      the track that `n - 1` rounds bring to the front has the file of the one
      skipped and the marker takes it off (not looping) or moves it back (looping
      the queue, nothing removed), or when that is past the end. */
  lemma SkipAdvancesExactly(s: State, amount: int, remove: bool)
    requires Current(s)
    ensures var n: nat := Clamp(amount, 1, 1000);
            var q, requeue := Reset(s).queue, Requeues(s, remove, false);
            Keys(SkipCommand(s, amount, remove).queue) == Left(Keys(q), n, requeue)
            <==> Advances(q, n, requeue, s.loopMode)
  {
    SkipLands(s, amount, remove);
    MarkerAdvancesExactly(Reset(s).queue, Rounds(s, amount, false), Clamp(amount, 1, 1000),
                          Requeues(s, remove, false), s.loopMode);
  }

  /** Two queues on which it does not: skipping two lands on the next track; and
      removing the current one, looping the queue, leaves it at the end. */
  lemma SkipNeedNotAdvance(a: Track, b: Track, c: Track, s: State)
    requires a.filename != "" && b.filename != a.filename
    requires s.queue == [a, b, c] && s.current == a && s.shifted == 0 && !s.stopped
    ensures s.loopMode == NoLoop ==> Keys(SkipCommand(s, 2, false).queue) == [Key(b), Key(c)]
    ensures s.loopMode == LoopQueue ==> Keys(SkipCommand(s, 1, true).queue) == [Key(b), Key(c), Key(a)]
  {
    assert Keys(s.queue) == [Key(a), Key(b), Key(c)];
    if s.loopMode == NoLoop {
      SkipLands(s, 2, false);
    } else if s.loopMode == LoopQueue {
      SkipLands(s, 1, true);
    }
  }

  /** One and two rounds bring different queues, unless there is nothing to tell them
      apart. */
  lemma OneAndTwoRounds(q: seq<Track>, requeue: bool)
    requires q != []
    ensures Left(q, 1, requeue) == Left(q, 2, requeue) <==> if requeue then AllSame(q) else |q| == 1
  {
    if requeue {
      RotatedNext(q, 1);
      RotatedLeftSame(Left(q, 1, true));
      SameWhenRotated(q, Wrap(1, |q|));
    } else if |q| > 1 {
      assert |Left(q, 1, false)| == |q| - 1 && |Left(q, 2, false)| == |q| - 2;
    }
  }

  /** The marker right after a skip of one passes over the current track. */
  lemma NoRounds(q: seq<Track>, requeue: bool, mode: LoopMode)
    requires q != [] && (mode == NoLoop || mode == LoopQueue)
    ensures AfterMarker(Left(Keys(q), 0, requeue), q[0], mode) == Left(Keys(q), 1, mode == LoopQueue)
  {
    assert Rotated(Keys(q), 0) == Keys(q);
    RotatedNext(Keys(q), 0);
  }

  lemma TwoIsOneRequeued(q: seq<Track>)
    requires q != []
    ensures AfterMarker(Left(Keys(q), 1, true), q[0], LoopQueue) == Left(Keys(q), 1, true)
       <==> !SameFileAt(q, 1) || AllSame(Keys(q))
  {
    RotatedAt(Keys(q), 1, 0);
    RotatedLeftSame(Left(Keys(q), 1, true));
    SameWhenRotated(Keys(q), Wrap(1, |q|));
  }

  lemma TwoIsOneTaken(q: seq<Track>, mode: LoopMode)
    requires q != [] && (mode == NoLoop || mode == LoopQueue)
    ensures AfterMarker(Left(Keys(q), 1, false), q[0], mode) == Left(Keys(q), 1, mode == LoopQueue)
       <==> mode == NoLoop && (|q| == 1 || !SameFileAt(q, 1))
  {
    var one := AfterMarker(Left(Keys(q), 1, false), q[0], mode);
    assert |one| < |q|;
    if |q| > 1 {
      assert Left(Keys(q), 1, false)[0].filename == q[1].filename && Wrap(1, |q|) == 1;
    }
  }

  lemma MarkerTwoIsOne(q: seq<Track>, requeue: bool, mode: LoopMode)
    requires q != [] && (mode == NoLoop || mode == LoopQueue) && (requeue ==> mode == LoopQueue)
    ensures var two, one := AfterMarker(Left(Keys(q), 1, requeue), q[0], mode),
                            AfterMarker(Left(Keys(q), 0, requeue), q[0], mode);
            two == one <==>
            if requeue then !SameFileAt(q, 1) || AllSame(Keys(q))
            else mode == NoLoop && (|q| == 1 || !SameFileAt(q, 1))
  {
    NoRounds(q, requeue, mode);
    if requeue {
      TwoIsOneRequeued(q);
    } else {
      TwoIsOneTaken(q, mode);
    }
  }

  /** When skipping two tracks leaves the queue that skipping one leaves. */
  predicate TwoIsOne(q: seq<Track>, requeue: bool, mode: LoopMode)
    requires q != []
  {
    if LoopsSong(mode) then if requeue then AllSame(Keys(q)) else |q| == 1
    else if requeue then !SameFileAt(q, 1) || AllSame(Keys(q))
    else mode == NoLoop && (|q| == 1 || !SameFileAt(q, 1))
  }

  lemma RoundsTwoIsOne(q: seq<Track>, requeue: bool, mode: LoopMode)
    requires q != [] && (requeue ==> mode == LoopQueue || mode == LoopSongQueue)
    ensures var more := if LoopsSong(mode) then 1 else 0;
            AfterMarker(Left(Keys(q), more + 1, requeue), q[0], mode)
            == AfterMarker(Left(Keys(q), more, requeue), q[0], mode)
            <==> TwoIsOne(q, requeue, mode)
  {
    if LoopsSong(mode) {
      OneAndTwoRounds(Keys(q), requeue);
    } else {
      MarkerTwoIsOne(q, requeue, mode);
    }
  }

  /** Skipping two tracks leaves the queue that skipping one leaves exactly when the
      next track has another file and no song is looped (and, looping the queue,
      nothing is removed), or when the tracks cannot be told apart. */
  lemma SkipTwoIsSkipOneExactly(s: State, remove: bool)
    requires Current(s)
    ensures Keys(SkipCommand(s, 2, remove).queue) == Keys(SkipCommand(s, 1, remove).queue)
       <==> TwoIsOne(Reset(s).queue, Requeues(s, remove, false), s.loopMode)
  {
    SkipLands(s, 1, remove);
    SkipLands(s, 2, remove);
    RoundsTwoIsOne(Reset(s).queue, Requeues(s, remove, false), s.loopMode);
  }

  // ---------------------------------------------------------------- going back

  /** The previous-track button and the `e` marker that follows it. */
  function PreviousCommand(s: State): State
    requires OffsetOk(s)
  {
    Marker(Previous(s), true)
  }

  function RotatedRight<T>(q: seq<T>): seq<T> {
    if q == [] then [] else [q[|q| - 1]] + q[..|q| - 1]
  }

  lemma KeysRotated(q: seq<Track>)
    ensures Keys(RotatedRight(q)) == RotatedRight(Keys(q))
  {
  }

  lemma PreviousKeys(s: State)
    requires OffsetOk(s) && s.shifted == 0 && s.queue != []
    ensures Keys(Previous(s).queue) == RotatedRight(Keys(s.queue))
  {
    var q := SettleFront(s.queue);
    assert Reset(s) == s && Keys(q) == Keys(s.queue);
    assert Previous(s).queue == RotatedRight(q);
    KeysRotated(q);
  }

  lemma PreviousLandsFromFront(s: State)
    requires InPlay(s) && s.current.filename != ""
    ensures var s' := PreviousCommand(s);
            && Keys(s'.queue) == AfterMarker(RotatedRight(Keys(s.queue)), s.queue[0], s.loopMode)
            && (if s'.queue == [] then s'.current == NO_TRACK else InPlay(s'))
  {
    var back := Previous(s);
    PreviousKeys(s);
    assert Reset(s) == s && back.current == Settled(s.current);
    assert Key(s.current).filename == Key(s.queue[0]).filename;
    MarkerKeys(back);
  }

  /** Where going back lands: the last track of the reset queue comes to the front and
      becomes current, unless it has the file of the current one; then the marker
      takes it off or moves it back as the loop mode says. */
  lemma PreviousLands(s: State)
    requires Current(s)
    ensures var q, s' := Reset(s).queue, PreviousCommand(s);
            && Keys(s'.queue) == AfterMarker(RotatedRight(Keys(q)), q[0], s.loopMode)
            && (if s'.queue == [] then s'.current == NO_TRACK else InPlay(s'))
  {
    CommandsResetFirst(s, 1, false);
    PreviousLandsFromFront(Reset(s));
  }

  /** What an `e` marker at the end of a track makes of a queue; `again` tells whether
      the track has repeats left. */
  function Ended(q: seq<Track>, mode: LoopMode, again: bool): seq<Track> {
    if again || q == [] then q
    else
      match mode
      case NoLoop => q[1..]
      case LoopQueue => RotatedLeft(q)
      case LoopSong => q
      case LoopSongQueue => q
  }

  lemma EndedKeys(s: State)
    requires InPlay(s)
    ensures var s' := Marker(s, true);
            && Keys(s'.queue) == Ended(Keys(s.queue), s.loopMode, s.queue[0].repeat > 0)
            && s'.loopMode == s.loopMode && (if s'.queue == [] then s'.shifted == 0 else InPlay(s'))
  {
    var advanced, s' := Advance(s, true), Marker(s, true);
    assert Reset(s) == s && Key(s.current).filename == Key(s.queue[0]).filename;
    assert Keys(s'.queue) == Keys(advanced.queue);
    if s.queue[0].repeat > 0 {
      assert Keys(advanced.queue) == Keys(s.queue);
    } else if s.loopMode == LoopQueue {
      KeysMoved(s.queue);
    } else if s.loopMode == NoLoop {
      assert Keys(s.queue[1..]) == Keys(s.queue)[1..];
    }
  }

  lemma RotationsUndo(q: seq<Track>)
    ensures RotatedRight(RotatedLeft(q)) == q == RotatedLeft(RotatedRight(q))
    ensures RotatedRight(q) == q <==> AllSame(q)
  {
    assert RotatedRight(RotatedLeft(q)) == q == RotatedLeft(RotatedRight(q));
    RotatedLeftSame(q);
  }

  /** Whether going back restores these tracks after the first of them has ended. */
  predicate Restorable(q: seq<Track>, mode: LoopMode, again: bool)
    requires q != []
  {
    match mode
    case NoLoop => false
    case LoopSong => AllSame(q)
    case LoopSongQueue => AllSame(q)
    case LoopQueue =>
      if again then q[|q| - 1].filename == q[0].filename
      else q[0].filename != q[Wrap(1, |q|)].filename || AllSame(q)
  }

  lemma BackAfterEnd(q: seq<Track>, mode: LoopMode, again: bool)
    requires q != [] && Ended(q, mode, again) != []
    ensures var later := Ended(q, mode, again);
            AfterMarker(RotatedRight(later), later[0], mode) == q <==> Restorable(q, mode, again)
  {
    RotationsUndo(q);
    RotatedLeftSame(q);
    var later := Ended(q, mode, again);
    assert |RotatedRight(later)| == |later|;
    if mode == LoopQueue && !again {
      assert later[0] == q[Wrap(1, |q|)];
    }
  }

  lemma EndedFront(q: seq<Track>, mode: LoopMode, again: bool)
    requires Ended(q, mode, again) != []
    ensures Ended(q, mode, again)[0] in q
  {
  }

  lemma BackToFront(s: State, s': State)
    requires InPlay(s) && (s'.queue != [] ==> InPlay(s')) && Keys(s'.queue) == Keys(s.queue)
    ensures InPlay(s') && Key(s'.current) == Key(s.current)
  {
    assert Keys(s'.queue)[0] == Keys(s.queue)[0];
  }

  predicate Named(q: seq<Track>) {
    forall i | 0 <= i < |q| :: q[i].filename != ""
  }

  lemma AfterEnd(s: State, later: State)
    requires InPlay(s) && Streams(Marker(s, true), later) && Named(s.queue)
    ensures later.shifted == 0 && later.loopMode == s.loopMode
    ensures Keys(later.queue) == Ended(Keys(s.queue), s.loopMode, s.queue[0].repeat > 0)
    ensures later.queue != [] ==> InPlay(later) && later.current.filename != ""
  {
    EndedKeys(s);
    StreamKeepsPlay(Marker(s, true), later);
    if later.queue != [] {
      var q := Keys(s.queue);
      EndedFront(q, s.loopMode, s.queue[0].repeat > 0);
      var i :| 0 <= i < |q| && q[i] == Keys(later.queue)[0];
      assert Key(later.current).filename == Key(s.queue[i]).filename;
    }
  }

  lemma GoingBack(s: State, later: State, again: bool)
    requires InPlay(s) && InPlay(later) && later.current.filename != "" && later.loopMode == s.loopMode
    requires Keys(later.queue) == Ended(Keys(s.queue), s.loopMode, again)
    ensures var s' := PreviousCommand(later);
            && (Keys(s'.queue) == Keys(s.queue) <==> Restorable(Keys(s.queue), s.loopMode, again))
            && (s'.queue != [] ==> InPlay(s'))
  {
    PreviousLandsFromFront(later);
    BackAfterEnd(Keys(s.queue), s.loopMode, again);
    assert Keys(later.queue)[0].filename == later.queue[0].filename;
  }

  lemma PreviousUndoesFromFront(s: State, later: State)
    requires InPlay(s) && Named(s.queue) && Streams(Marker(s, true), later)
    ensures later.shifted == 0
    ensures var s' := PreviousCommand(later);
            && (Keys(s'.queue) == Keys(s.queue) <==> Restorable(Keys(s.queue), s.loopMode, s.queue[0].repeat > 0))
            && (Keys(s'.queue) == Keys(s.queue) ==> InPlay(s') && Key(s'.current) == Key(s.current))
  {
    AfterEnd(s, later);
    if later.queue != [] {
      GoingBack(s, later, s.queue[0].repeat > 0);
      if Keys(PreviousCommand(later).queue) == Keys(s.queue) {
        BackToFront(s, PreviousCommand(later));
      }
    } else {
      assert Keys(PreviousCommand(later).queue) == [] && |Keys(s.queue)| > 0;
      assert s.loopMode == NoLoop;
    }
  }

  /** Going back after a track has ended restores the reset queue, with that track
      current, exactly under this condition: looping the queue, when the next track
      has another file. */
  lemma PreviousUndoesNextExactly(s: State, later: State)
    requires Current(s) && Named(s.queue) && Streams(Marker(s, true), later)
    ensures later.shifted == 0
    ensures var q, s' := Reset(s).queue, PreviousCommand(later);
            && (Keys(s'.queue) == Keys(q) <==> Restorable(Keys(q), s.loopMode, q[0].repeat > 0))
            && (Keys(s'.queue) == Keys(q) ==> InPlay(s') && Key(s'.current) == Key(s.current))
  {
    PreviousUndoesFromFront(Reset(s), later);
  }
}
