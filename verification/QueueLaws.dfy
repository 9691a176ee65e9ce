/** What the queue operations keep, and what they amount to. */
module QueueLaws {
  import opened Sequences
  import opened PlayerState
  import GuildPlayer

  // ------------------------------------------------------- the playing track

  /** The track that is playing, by the offset. */
  function Playing(s: State): Track
    requires OffsetOk(s) && s.queue != []
  {
    s.queue[s.shifted]
  }

  function CountOf(q: seq<Track>, user: nat): nat {
    if q == [] then 0 else (if q[0].userId == user then 1 else 0) + CountOf(q[1..], user)
  }

  lemma {:induction false} NotOfLength(q: seq<Track>, user: nat)
    ensures |NotOf(q, user)| == |q| - CountOf(q, user)
  {
    if q != [] {
      NotOfLength(q[1..], user);
    }
  }

  /** Removing a user's tracks does not reset the offset; it leaves it inside the
      queue exactly when it was 0 or enough tracks stay. */
  lemma RemoveByUserKeepsOffsetExactly(s: State, user: nat)
    requires OffsetOk(s)
    ensures OffsetOk(RemoveByUser(s, user)) <==>
            s.shifted == 0 || user == 0 || s.shifted + CountOf(s.queue[1..], user) < |s.queue|
  {
    if s.queue != [] {
      NotOfLength(s.queue[1..], user);
    }
  }

  /** A queue on which it does not: the playing track is the user's own. */
  lemma RemoveByUserCanBreakOffset()
    ensures var s := State([NO_TRACK.(userId := 1), NO_TRACK.(userId := 2)], 1, NO_TRACK, NoLoop, false);
            OffsetOk(s) && !OffsetOk(RemoveByUser(s, 2))
  {
    var b := NO_TRACK.(userId := 2);
    assert [b][1..] == [];
    assert NotOf([b], 2) == [];
  }

  lemma {:induction false} NotOfAppend(a: seq<Track>, b: seq<Track>, user: nat)
    ensures NotOf(a + b, user) == NotOf(a, user) + NotOf(b, user)
    decreases |a|
  {
    if a == [] {
      assert a + b == b;
    } else {
      assert (a + b)[1..] == a[1..] + b;
      NotOfAppend(a[1..], b, user);
    }
  }

  lemma {:induction false} NotOfSelects(q: seq<Track>, user: nat, t: Track)
    requires t in NotOf(q, user)
    ensures t in q
  {
    if t !in NotOf(q[1..], user) {
      assert t == q[0];
    } else {
      NotOfSelects(q[1..], user, t);
    }
  }

  lemma {:induction false} NoneOf(q: seq<Track>, user: nat)
    requires CountOf(q, user) == 0
    ensures NotOf(q, user) == q
  {
    if q != [] {
      NoneOf(q[1..], user);
    }
  }

  /** When none of the first tracks is the user's, they stay where they are. */
  lemma NotOfKeepsFront(front: seq<Track>, back: seq<Track>, user: nat)
    requires CountOf(front, user) == 0
    ensures front <= NotOf(front + back, user)
  {
    NotOfAppend(front, back, user);
    NoneOf(front, user);
  }

  /** When one is, the track that comes to their end, if any, is a later one. */
  lemma NotOfShiftsFront(front: seq<Track>, back: seq<Track>, user: nat)
    requires CountOf(front, user) > 0
    ensures |front| <= |NotOf(front + back, user)| ==> NotOf(front + back, user)[|front| - 1] in back
  {
    var kept := NotOf(front + back, user);
    NotOfAppend(front, back, user);
    NotOfLength(front, user);
    if |front| <= |kept| {
      NotOfSelects(back, user, kept[|front| - 1]);
    }
  }

  lemma LaterIsAnother(q: seq<Track>, i: nat, t: Track)
    requires NoDuplicates(q) && i < |q| && t in q[i + 1..]
    ensures t != q[i]
  {
    var k :| 0 <= k < |q| - i - 1 && q[i + 1..][k] == t;
    assert q[i + 1 + k] == t;
  }

  /** Of tracks that are all different, position `i` keeps its track exactly when
      none up to and including it is the user's. */
  lemma NotOfKeepsAt(q: seq<Track>, user: nat, i: nat)
    requires NoDuplicates(q) && i < |q|
    ensures i < |NotOf(q, user)| && NotOf(q, user)[i] == q[i] <==> CountOf(q[..i + 1], user) == 0
  {
    var front, back := q[..i + 1], q[i + 1..];
    assert front + back == q;
    if CountOf(front, user) == 0 {
      NotOfKeepsFront(front, back, user);
      assert front[i] == q[i];
    } else {
      NotOfShiftsFront(front, back, user);
      if i < |NotOf(q, user)| {
        LaterIsAnother(q, i, NotOf(q, user)[i]);
      }
    }
  }

  /** It keeps the playing track where the offset says exactly when no track after
      the front and up to the playing one is the user's. */
  lemma RemoveByUserKeepsPlayingExactly(s: State, user: nat)
    requires OffsetOk(s) && s.queue != [] && NoDuplicates(s.queue)
    ensures var s' := RemoveByUser(s, user);
            OffsetOk(s') && Playing(s') == Playing(s) <==>
            s.shifted == 0 || user == 0 || CountOf(s.queue[1..s.shifted + 1], user) == 0
  {
    if s.shifted > 0 {
      var rest := s.queue[1..];
      NotOfKeepsAt(rest, user, s.shifted - 1);
      assert rest[..s.shifted] == s.queue[1..s.shifted + 1];
      assert rest[s.shifted - 1] == s.queue[s.shifted];
    }
  }

  /** The sufficient half, without assuming the tracks distinct. */
  lemma RemoveByUserKeepsPlaying(s: State, user: nat)
    requires OffsetOk(s) && s.queue != []
    requires s.shifted == 0 || user == 0 || CountOf(s.queue[1..s.shifted + 1], user) == 0
    ensures var s' := RemoveByUser(s, user);
            OffsetOk(s') && Playing(s') == Playing(s)
  {
    if s.shifted > 0 && user != 0 {
      var front, back := s.queue[1..s.shifted + 1], s.queue[s.shifted + 1..];
      assert front + back == s.queue[1..];
      NotOfKeepsFront(front, back, user);
      assert NotOf(s.queue[1..], user)[s.shifted - 1] == front[s.shifted - 1];
    }
  }

  /** A queue on which it does not although the offset stays inside: another track
      takes the place of the playing one. */
  lemma RemoveByUserCanLosePlaying()
    ensures var a := NO_TRACK.(userId := 1);
            var c, d := a.(filename := "c"), a.(filename := "d");
            var s := State([a, NO_TRACK.(userId := 2), c, d], 2, c, NoLoop, false);
            && OffsetOk(s) && Playing(s) == c
            && OffsetOk(RemoveByUser(s, 2)) && Playing(RemoveByUser(s, 2)) == d
  {
    var a, b := NO_TRACK.(userId := 1), NO_TRACK.(userId := 2);
    var c, d := a.(filename := "c"), a.(filename := "d");
    assert [a, b, c, d][1..] == [b, c, d] && [b, c, d][1..] == [c, d] && [c, d][1..] == [d] && [d][1..] == [];
    assert CountOf([d], 2) == 0;
    NoneOf([c, d], 2);
  }

  /** Everything but the user's tracks is kept, as often as it was there. */
  lemma {:induction false} NotOfContents(q: seq<Track>, user: nat, t: Track)
    ensures multiset(NotOf(q, user))[t] == if t.userId == user then 0 else multiset(q)[t]
  {
    if q != [] {
      NotOfContents(q[1..], user, t);
      assert q == [q[0]] + q[1..];
    }
  }

  /** Removing a user's tracks spares the front track and leaves no other. */
  lemma RemoveByUserContents(s: State, user: nat)
    requires user != 0 && s.queue != []
    ensures RemoveByUser(s, user).queue[0] == s.queue[0]
    ensures forall t :: multiset(RemoveByUser(s, user).queue[1..])[t]
                     == if t.userId == user then 0 else multiset(s.queue[1..])[t]
  {
    forall t
      ensures multiset(RemoveByUser(s, user).queue[1..])[t] == if t.userId == user then 0 else multiset(s.queue[1..])[t]
    {
      NotOfContents(s.queue[1..], user, t);
    }
  }

  /** Adding a track keeps the playing track where the offset says, except when it
      slips in at or before the offset without counting as a top add. */
  lemma AddKeepsPlayingExactly(s: State, track: Track, top: bool, slip: int)
    requires OffsetOk(s) && s.queue != [] && NoDuplicates(s.queue) && track !in s.queue
    ensures Playing(Add(s, track, top, slip)) == Playing(s) <==>
            top || slip <= 1 || slip >= |s.queue| || slip > s.shifted
  {
  }

  /** A queue on which it does not: the track slips in where the playing one was. */
  lemma AddCanLosePlaying(a: Track, b: Track, c: Track, d: Track)
    requires d != c
    ensures var s := State([a, b, c], 2, c, NoLoop, false);
            OffsetOk(s) && Playing(s) == c && Playing(Add(s, d, false, 2)) == d
  {
  }

  /** The sufficient half, without assuming the tracks distinct. */
  lemma AddKeepsPlaying(s: State, track: Track, top: bool, slip: int)
    requires OffsetOk(s) && s.queue != []
    requires top || slip <= 1 || slip >= |s.queue| || slip > s.shifted
    ensures Playing(Add(s, track, top, slip)) == Playing(s)
  {
  }

  /** Resetting the offset moves the playing track to the front and keeps the
      order of all others. */
  lemma ResetMovesOnlyPlaying(s: State)
    requires OffsetOk(s) && s.queue != []
    ensures Reset(s).queue == [Playing(s)] + Erase(s.queue, s.shifted)
    ensures multiset(Reset(s).queue) == multiset(s.queue)
    ensures Playing(Reset(s)) == Playing(s) && Reset(Reset(s)) == Reset(s)
  {
    assert s.queue == s.queue[..s.shifted] + [s.queue[s.shifted]] + s.queue[s.shifted + 1..];
  }

  // ------------------------------------------------------- playlists on top

  lemma {:induction false} TopAdds(s: State, tracks: seq<Track>)
    requires OffsetOk(s)
    ensures AddAllToTop(s, tracks).queue == Reversed(tracks) + s.queue
    ensures s.queue != [] ==> AddAllToTop(s, tracks).shifted == s.shifted + |tracks|
    ensures s.queue == [] ==> AddAllToTop(s, tracks).shifted == if tracks == [] then 0 else |tracks| - 1
    ensures |Reversed(tracks)| == |tracks|
    decreases |tracks|
  {
    if tracks != [] {
      var next := Add(s, tracks[0], true, 0);
      TopAdds(next, tracks[1..]);
      assert Reversed(tracks[1..]) + ([tracks[0]] + s.queue) == Reversed(tracks) + s.queue;
    }
  }

  lemma {:induction false} ReversedTwice<T>(q: seq<T>)
    ensures Reversed(Reversed(q)) == q
  {
    if q != [] {
      GuildPlayer.ReversedSnoc(Reversed(q[1..]), q[0]);
      ReversedTwice(q[1..]);
    }
  }

  lemma FrontAfterPrefix(d: seq<Track>, q: seq<Track>, i: nat)
    requires i < |q|
    ensures [(d + q)[|d| + i]] + Erase(d + q, |d| + i) == [q[i]] + d + Erase(q, i)
  {
    assert (d + q)[..|d| + i] == d + q[..i];
    assert (d + q)[|d| + i + 1..] == q[i + 1..];
  }

  lemma TopLoad(s: State, playlist: seq<Track>)
    requires OffsetOk(s)
    ensures AddAllToTop(s, Reversed(playlist)).queue == playlist + s.queue
    ensures s.queue != [] ==> AddAllToTop(s, Reversed(playlist)).shifted == s.shifted + |playlist|
    ensures s.queue == [] && playlist != [] ==> AddAllToTop(s, Reversed(playlist)).shifted == |playlist| - 1
  {
    TopAdds(s, Reversed(playlist));
    ReversedTwice(playlist);
    ReversedContents(playlist);
  }

  lemma FetchedCons(t: Track, ok: bool, rest: seq<Track>, fetched: seq<bool>)
    requires |rest| == |fetched|
    ensures Fetched([t] + rest, [ok] + fetched) == (if ok then [t] else []) + Fetched(rest, fetched)
  {
    assert ([t] + rest)[1..] == rest && ([ok] + fetched)[1..] == fetched;
  }

  lemma {:induction false} FetchedAppend(a: seq<Track>, f: seq<bool>, b: seq<Track>, g: seq<bool>)
    requires |a| == |f| && |b| == |g|
    ensures Fetched(a + b, f + g) == Fetched(a, f) + Fetched(b, g)
    decreases |a|
  {
    if a == [] {
      assert a + b == b && f + g == g;
    } else {
      var (t, ok) := (a[0], f[0]);
      FetchedCons(t, ok, a[1..] + b, f[1..] + g);
      FetchedCons(t, ok, a[1..], f[1..]);
      FetchedAppend(a[1..], f[1..], b, g);
      assert [t] + (a[1..] + b) == a + b && [ok] + (f[1..] + g) == f + g && [t] + a[1..] == a && [ok] + f[1..] == f;
    }
  }

  lemma {:induction false} ReversedAppend<T>(a: seq<T>, b: seq<T>)
    ensures Reversed(a + b) == Reversed(b) + Reversed(a)
    decreases |a|
  {
    if a == [] {
      assert a + b == b;
    } else {
      assert (a + b)[1..] == a[1..] + b;
      ReversedAppend(a[1..], b);
    }
  }

  /** What is loaded of a playlist, in reverse, is the reverse of a part of it: the
      following laws apply to that part. */
  lemma {:induction false} LoadedInReverse(playlist: seq<Track>, fetched: seq<bool>)
    requires |fetched| == |playlist|
    ensures Fetched(Reversed(playlist), Reversed(fetched)) == Reversed(Fetched(playlist, fetched))
    decreases |playlist|
  {
    if playlist != [] {
      var p, f := playlist[..1], fetched[..1];
      LoadedInReverse(playlist[1..], fetched[1..]);
      FetchedAppend(Reversed(playlist[1..]), Reversed(fetched[1..]), p, f);
      assert Reversed(playlist) == Reversed(playlist[1..]) + p && Reversed(fetched) == Reversed(fetched[1..]) + f;
      assert p[1..] == [] && Fetched(p, f) == if fetched[0] then p else [];
      ReversedAppend(Fetched(p, f), Fetched(playlist[1..], fetched[1..]));
      assert Reversed(Fetched(p, f)) == Fetched(p, f);
    }
  }

  /** The reset queue, its front and its rest. */
  lemma ResetQueue(s: State)
    requires OffsetOk(s) && s.queue != []
    ensures Reset(s).queue == [s.queue[s.shifted]] + Erase(s.queue, s.shifted)
    ensures Reset(s).queue[0] == s.queue[s.shifted] && Reset(s).queue[1..] == Erase(s.queue, s.shifted)
  {
  }

  /** Loading a playlist to the top of a queue that is playing puts it, in its own
      order, right after the playing track and before all others, however far
      earlier top adds had shifted the queue. */
  lemma PlaylistFollowsPlaying(s: State, playlist: seq<Track>)
    requires OffsetOk(s) && s.queue != []
    ensures var loaded := AddAllToTop(s, Reversed(playlist));
            OffsetOk(loaded) && Reset(loaded).queue == [Reset(s).queue[0]] + playlist + Reset(s).queue[1..]
  {
    var loaded := AddAllToTop(s, Reversed(playlist));
    TopLoad(s, playlist);
    FrontAfterPrefix(playlist, s.queue, s.shifted);
    ResetQueue(s);
    ResetQueue(loaded);
  }

  /** Loading one to the top of an empty queue makes its last track the playing
      one, ahead of the rest. */
  lemma PlaylistOnEmptyQueue(s: State, playlist: seq<Track>)
    requires OffsetOk(s) && s.queue == [] && playlist != []
    ensures var loaded := AddAllToTop(s, Reversed(playlist));
            OffsetOk(loaded) && Reset(loaded).queue == [playlist[|playlist| - 1]] + playlist[..|playlist| - 1]
  {
    TopLoad(s, playlist);
    var loaded := AddAllToTop(s, Reversed(playlist));
    assert loaded.queue == playlist;
    ResetMovesOnlyPlaying(loaded);
  }

  // ------------------------------------------------------------------ skipping

  /** Without re-queueing, skipping takes a prefix off. */
  lemma {:induction false} SkippedPrefix(q: seq<Track>, k: nat)
    ensures var n := if k < |q| then k else |q|;
            Skipped(q, k, false) == (q[..n], q[n..])
    decreases k
  {
    if k > 0 && q != [] {
      assert q[1..] + [] == q[1..];
      SkippedPrefix(q[1..], k - 1);
      var n := if k < |q| then k else |q|;
      assert q[..n] == [q[0]] + q[1..][..n - 1];
    }
  }

  /** Element `p` of the queue after `j` rounds: repeats end once it was taken. */
  function After(q: seq<Track>, j: nat, p: nat): Track
    requires p < |q|
  {
    if p < j then Settled(q[p]) else q[p]
  }

  /** The remainder of `i` divided by `n`: position `i` of the endless repetition of
      a queue of length `n`. */
  function Wrap(i: nat, n: nat): (w: nat)
    requires n > 0
    ensures w < n && w <= i
  {
    if i < n then i else Wrap(i - n, n)
  }

  lemma {:induction false} WrapIsModulo(i: nat, n: nat)
    requires n > 0
    ensures Wrap(i, n) == i % n
  {
    if i >= n {
      WrapIsModulo(i - n, n);
      ModuloShifts(i - n, n);
    }
  }

  lemma ModuloShifts(j: nat, n: nat)
    requires n > 0
    ensures (j + n) % n == j % n
  {
    var more := (j + n) / n - j / n - 1;
    assert n * more == j % n - (j + n) % n;
  }

  /** The queue after `j` rounds with re-queueing: rotated, and settled where
      taken. */
  ghost predicate RotatedBy(q: seq<Track>, j: nat, rotated: seq<Track>) {
    |rotated| == |q| && forall i | 0 <= i < |q| :: rotated[i] == After(q, j, Wrap(j + i, |q|))
  }

  /** The tracks taken in rounds `j` and later. */
  ghost predicate TakenFrom(q: seq<Track>, j: nat, taken: seq<Track>)
    requires q != []
  {
    forall i | 0 <= i < |taken| :: taken[i] == After(q, j + i, Wrap(j + i, |q|))
  }

  lemma WrapsToOther(j: nat, i: nat, n: nat)
    requires 0 < i < n
    ensures Wrap(j + i, n) != j
  {
    if j + i >= n { assert Wrap(j + i - n, n) <= j + i - n; }
  }

  lemma AfterOthers(q: seq<Track>, j: nat, p: nat)
    requires p < |q| && p != j
    ensures After(q, j + 1, p) == After(q, j, p)
  {
  }

  lemma AfterTaken(q: seq<Track>, j: nat, p: nat)
    requires p < |q| && p <= j
    ensures After(q, j + 1, p) == Settled(After(q, j, p))
  {
  }

  lemma WrapRound(j: nat, n: nat)
    requires n > 0
    ensures Wrap(j + n, n) == Wrap(j, n)
  {
  }

  lemma RotateOnce(q: seq<Track>, j: nat, r: seq<Track>)
    requires q != [] && RotatedBy(q, j, r)
    ensures RotatedBy(q, j + 1, r[1..] + [Settled(r[0])])
    ensures r[0] == After(q, j, Wrap(j, |q|))
  {
    var n := |q|;
    var next := r[1..] + [Settled(r[0])];
    assert j + 0 == j;
    forall i | 0 <= i < n ensures next[i] == After(q, j + 1, Wrap(j + 1 + i, n)) {
      if i < n - 1 {
        assert j + (i + 1) == j + 1 + i;
        WrapsToOther(j, i + 1, n);
        AfterOthers(q, j, Wrap(j + 1 + i, n));
      } else {
        assert j + 1 + i == j + n;
        WrapRound(j, n);
        AfterTaken(q, j, Wrap(j, n));
      }
    }
  }

  lemma {:induction false} SkippedRotates(q: seq<Track>, j: nat, r: seq<Track>, k: nat)
    requires q != [] && RotatedBy(q, j, r)
    ensures |Skipped(r, k, true).0| == k && TakenFrom(q, j, Skipped(r, k, true).0)
    ensures RotatedBy(q, j + k, Skipped(r, k, true).1)
    decreases k
  {
    if k > 0 {
      RotateOnce(q, j, r);
      var next := r[1..] + [Settled(r[0])];
      SkippedRotates(q, j + 1, next, k - 1);
      var (taken, rest) := Skipped(next, k - 1, true);
      assert Skipped(r, k, true) == ([r[0]] + taken, rest);
      forall i | 0 <= i < k ensures ([r[0]] + taken)[i] == After(q, j + i, Wrap(j + i, |q|)) {
        if i > 0 { assert j + 1 + (i - 1) == j + i; } else { assert j + 0 == j; }
      }
      assert j + 1 + (k - 1) == j + k;
    }
  }

  /** `taken` and `left` are what `k` rounds over `q` with re-queueing come to. */
  ghost predicate CyclesThrough(q: seq<Track>, k: nat, taken: seq<Track>, left: seq<Track>)
    requires q != []
  {
    |taken| == k && TakenFrom(q, 0, taken) && RotatedBy(q, k, left)
  }

  lemma RoundsCycle(q: seq<Track>, k: nat)
    requires q != []
    ensures CyclesThrough(q, k, Skipped(q, k, true).0, Skipped(q, k, true).1)
  {
    assert RotatedBy(q, 0, q);
    SkippedRotates(q, 0, q, k);
    assert 0 + k == k;
  }

  /** When tracks are re-queued, skipping `k` rotates the reset queue left by `k`
      modulo its length, even past a whole round, and returns the first `k`
      tracks of its endless repetition. */
  lemma SkipRotates(s: State, amount: int, remove: bool, popCurrent: bool, pushBack: bool)
    requires OffsetOk(s) && s.queue != [] && Requeues(s, remove, pushBack)
    ensures var (taken, s') := Skip(s, amount, remove, popCurrent, pushBack);
            CyclesThrough(SettleFront(Reset(s).queue), Rounds(s, amount, popCurrent), taken, s'.queue)
  {
    RoundsCycle(SettleFront(Reset(s).queue), Rounds(s, amount, popCurrent));
  }

  lemma TakenAndLeft(q: seq<Track>, k: nat)
    ensures var (taken, left) := Skipped(q, k, false);
            taken + left == q && |taken| == if k < |q| then k else |q|
  {
    SkippedPrefix(q, k);
    var n := if k < |q| then k else |q|;
    assert q[..n] + q[n..] == q;
  }

  /** When they are not, what is returned and what remains make up the reset
      queue, and as many are returned as asked for, or all. */
  lemma SkipTakesPrefix(s: State, amount: int, remove: bool, popCurrent: bool, pushBack: bool)
    requires OffsetOk(s) && !Requeues(s, remove, pushBack)
    ensures var q := SettleFront(Reset(s).queue);
            var k := Rounds(s, amount, popCurrent);
            var (taken, s') := Skip(s, amount, remove, popCurrent, pushBack);
            taken + s'.queue == q && |taken| == if k < |q| then k else |q|
  {
    TakenAndLeft(SettleFront(Reset(s).queue), Rounds(s, amount, popCurrent));
  }

  // --------------------------------------------------------------- reordering

  lemma {:induction false} ReversedContents<T>(q: seq<T>)
    ensures |Reversed(q)| == |q| && multiset(Reversed(q)) == multiset(q)
    ensures forall i | 0 <= i < |q| :: Reversed(q)[i] == q[|q| - 1 - i]
  {
    if q != [] {
      ReversedContents(q[1..]);
      assert q == [q[0]] + q[1..];
    }
  }

  lemma ReverseSegment(q: seq<Track>, size: nat)
    requires 3 <= size <= |q|
    ensures var r := [q[0]] + Reversed(q[1..size]);
            && |r| == size
            && (forall i | 1 <= i < size :: r[i] == q[size - i])
            && (multiset(r) == multiset(q) <==> size == |q|)
  {
    var r := [q[0]] + Reversed(q[1..size]);
    ReversedContents(q[1..size]);
    assert q == [q[0]] + q[1..size] + q[size..];
    assert multiset(q) == multiset(r) + multiset(q[size..]);
    assert |multiset(q[size..])| == |q| - size;
  }

  /** Reversing keeps the playing track first and reverses the others; no track is
      lost exactly when the copy it measured was as long as the live queue (or too
      short to reverse, or so long that it throws). */
  lemma ReverseKeepsTracksExactly(s: State, size: nat)
    requires OffsetOk(s)
    ensures var result := ReverseQueue(s, size);
            && (result.Done? && size >= 3 ==>
                  && |result.state.queue| == size <= |s.queue|
                  && result.state.queue[0] == Playing(s)
                  && (forall i | 1 <= i < size :: result.state.queue[i] == Reset(s).queue[size - i]))
            && (multiset(result.state.queue) == multiset(s.queue) <==> size < 3 || size >= |s.queue|)
  {
    if s.queue != [] {
      ResetMovesOnlyPlaying(s);
    }
    if 3 <= size <= |s.queue| {
      ReverseSegment(Reset(s).queue, size);
    }
  }

  /** A queue on which one is: it grew after its copy was made. */
  lemma ReverseCanDropTrack(a: Track, b: Track, c: Track, d: Track)
    requires d !in [a, b, c]
    ensures var s := State([a, b, c, d], 0, a, NoLoop, false);
            ReverseQueue(s, 3) == Done(s.(queue := [a, c, b]))
  {
    var q := [a, b, c, d];
    assert q[1..3] == [b, c] && [b, c][1..] == [c] && [c][1..] == [];
    assert Reversed([c]) == [c] && Reversed([b, c]) == [c, b];
    assert [a] + [c, b] == [a, c, b];
  }

  lemma MoveElement(q: seq<Track>, f: nat, t: nat)
    requires 1 <= f < |q| && 1 <= t < |q|
    ensures var r := Insert(Erase(q, f), t, q[f]);
            && |r| == |q| && r[t] == q[f] && r[0] == q[0]
            && Erase(r, t) == Erase(q, f)
            && multiset(r) == multiset(q)
  {
    var rest := Erase(q, f);
    var r := Insert(rest, t, q[f]);
    assert q == q[..f] + [q[f]] + q[f + 1..];
    assert rest == rest[..t] + rest[t..];
    assert r[..t] == rest[..t] && r[t + 1..] == rest[t..];
    assert multiset(r) == multiset(rest) + multiset{q[f]};
  }

  /** Moving a track keeps the relative order of all others and puts the track at
      the clamped target. */
  lemma MoveMovesOne(s: State, from: int, to: int)
    requires |s.queue| >= 3
    ensures var f, t := Position(s, from), Position(s, to);
            var s' := Move(s, from, to);
            && s' == s.(queue := s'.queue) && |s'.queue| == |s.queue|
            && s'.queue[t] == s.queue[f]
            && Erase(s'.queue, t) == Erase(s.queue, f)
            && s'.queue[0] == s.queue[0]
            && multiset(s'.queue) == multiset(s.queue)
  {
    MoveElement(s.queue, Position(s, from), Position(s, to));
  }

  /** It does not reset the offset: the playing track stays where the offset says
      exactly when the move does not reach over it. */
  lemma MoveKeepsPlayingExactly(s: State, from: int, to: int)
    requires OffsetOk(s) && |s.queue| >= 3 && NoDuplicates(s.queue)
    ensures var f, t := Position(s, from), Position(s, to);
            Playing(Move(s, from, to)) == Playing(s) <==>
            f == t || (s.shifted < f && s.shifted < t) || (s.shifted > f && s.shifted > t)
  {
  }

  /** The sufficient half, without assuming the tracks distinct. */
  lemma MoveKeepsPlaying(s: State, from: int, to: int)
    requires OffsetOk(s) && |s.queue| >= 3
    requires var f, t := Position(s, from), Position(s, to);
             f == t || (s.shifted < f && s.shifted < t) || (s.shifted > f && s.shifted > t)
    ensures Playing(Move(s, from, to)) == Playing(s)
  {
  }

  /** A queue on which it does not: the playing track itself is moved. */
  lemma MoveCanLosePlaying(a: Track, b: Track, c: Track)
    requires b != c
    ensures var s := State([a, b, c], 1, b, NoLoop, false);
            OffsetOk(s) && Playing(s) == b && Playing(Move(s, 1, 2)) == c
  {
    var q := [a, b, c];
    assert Erase(q, 1) == [a, c] && Insert([a, c], 2, b) == [a, c, b];
  }

  /** Shuffling keeps the playing track first and permutes the others, whatever
      random numbers it draws. */
  lemma ShufflePermutes(s: State, draws: seq<nat>)
    requires OffsetOk(s) && |s.queue| >= 3 && |draws| >= |s.queue|
    ensures Shuffle(s, draws).queue[0] == Playing(s)
    ensures multiset(Shuffle(s, draws).queue) == multiset(s.queue)
  {
    ResetMovesOnlyPlaying(s);
    var q := Reset(s).queue;
    GuildPlayer.DrawnPermutes(q[1..], draws);
    assert q == [q[0]] + q[1..];
  }

  lemma EraseContents(pool: seq<Track>, r: nat)
    requires r < |pool|
    ensures multiset(Erase(pool, r)) == multiset(pool) - multiset{pool[r]}
  {
    assert pool == pool[..r] + [pool[r]] + pool[r + 1..];
  }

  lemma DrawAt(pool: seq<Track>, r: nat, rest: seq<nat>)
    requires r < |pool| && |rest| == |pool| - 1
    ensures Drawn(pool, [r] + rest) == [pool[r]] + Drawn(Erase(pool, r), rest)
  {
    var draws: seq<nat> := [r] + rest;
    assert draws[0] == r && draws[1..] == rest;
    GuildPlayer.DrawFirst(pool, draws);
  }

  /** And every order of the others can come out. */
  lemma {:induction false} EveryOrderCanBeDrawn(pool: seq<Track>, order: seq<Track>) returns (draws: seq<nat>)
    requires multiset(order) == multiset(pool)
    ensures |draws| == |pool| && Drawn(pool, draws) == order
    decreases |pool|
  {
    assert |order| == |multiset(order)| == |multiset(pool)| == |pool|;
    if pool == [] {
      draws := [];
    } else {
      assert order[0] in multiset(pool);
      var r: nat :| r < |pool| && pool[r] == order[0];
      EraseContents(pool, r);
      EraseContents(order, 0);
      assert Erase(order, 0) == order[1..];
      var rest := EveryOrderCanBeDrawn(Erase(pool, r), order[1..]);
      DrawAt(pool, r, rest);
      draws := [r] + rest;
    }
  }
}
