/** The player object of a guild, whose methods update it in place. */
module GuildPlayer {
  import opened MachineWords
  import opened Sequences
  import opened PlayerState

  /** `guild_player_t`, as far as its queue goes.  The caller holds the player's
      mutex. */
  class Player {
    var queue: seq<Track>
    var shiftedTrack: nat
    var currentTrack: Track
    var loopMode: LoopMode
    var stopped: bool

    ghost function View(): State
      reads this
    {
      State(queue, shiftedTrack, currentTrack, loopMode, stopped)
    }

    constructor ()
      ensures View() == State([], 0, NO_TRACK, NoLoop, false)
    {
      queue, shiftedTrack, currentTrack, loopMode, stopped := [], 0, NO_TRACK, NoLoop, false;
    }

    method ResetShifted() returns (moved: bool)
      requires OffsetOk(View())
      modifies this
      ensures View() == Reset(old(View()))
      ensures moved <==> old(queue != [] && shiftedTrack > 0)
    {
      if |queue| > 0 && shiftedTrack > 0 {
        var s := queue[shiftedTrack];
        queue := queue[..shiftedTrack] + queue[shiftedTrack + 1..];
        queue := [s] + queue;
        shiftedTrack := 0;
        return true;
      }
      shiftedTrack := 0;
      return false;
    }

    /** `fetched` tells whether the track's details are known or could be had. */
    method AddTrack(track: Track, top: bool, argSlip: int, fetched: bool)
      modifies this
      ensures View() == if fetched then Add(old(View()), track, top, argSlip) else old(View())
    {
      if !fetched {
        return;
      }
      var siz := |queue|;
      if top || argSlip == 1 {
        queue := [track] + queue;
        if shiftedTrack < |queue| - 1 {
          shiftedTrack := shiftedTrack + 1;
        }
      } else if argSlip > 1 && siz > argSlip {
        queue := queue[..argSlip] + [track] + queue[argSlip..];
      } else {
        queue := queue + [track];
      }
    }

    /** Skipping ends the repeats of the track skipped. */
    method ClearRepeats()
      modifies this
      ensures View() == old(View()).(current := SettleCurrent(old(currentTrack)), queue := SettleFront(old(queue)))
    {
      if currentTrack.filename != "" {
        currentTrack := currentTrack.(repeat := 0);
      }
      if queue != [] {
        queue := queue[0 := queue[0].(repeat := 0)];
      }
    }

    method SkipQueue(amount: int, remove: bool, popCurrent: bool, pushBack: bool) returns (removedTracks: seq<Track>)
      requires OffsetOk(View())
      modifies this
      ensures (removedTracks, View()) == Skip(old(View()), amount, remove, popCurrent, pushBack)
    {
      var moved := ResetShifted();
      removedTracks := SkipTracks(amount, remove, popCurrent, pushBack);
    }

    /** `skip_queue` from where the offset is reset. */
    method SkipTracks(amount: int, remove: bool, popCurrent: bool, pushBack: bool) returns (removedTracks: seq<Track>)
      modifies this
      ensures (removedTracks, View()) == SkipFromFront(old(View()), amount, remove, popCurrent, pushBack)
    {
      var n := if amount < 1 then 1 else amount;
      n := if n > 1000 then 1000 else n;
      var loopsSong := loopMode == LoopSong;
      var loopsSongQueue := loopMode == LoopSongQueue;
      var loopsQueue := loopMode == LoopQueue;
      ClearRepeats();
      var shouldPop := popCurrent || loopsSong || loopsSongQueue;
      var i := if shouldPop then 0 else 1;
      removedTracks := PopFront(n - i, !remove && (pushBack || loopsSongQueue || loopsQueue));
    }

    /** The loop of `skip_queue`. */
    method PopFront(rounds: nat, requeue: bool) returns (removedTracks: seq<Track>)
      modifies this
      ensures removedTracks == Skipped(old(queue), rounds, requeue).0
      ensures View() == old(View()).(queue := Skipped(old(queue), rounds, requeue).1)
    {
      removedTracks := [];
      var i := 0;
      while i < rounds
        invariant 0 <= i <= rounds && View() == old(View()).(queue := queue)
        invariant Skipped(old(queue), rounds, requeue).0 == removedTracks + Skipped(queue, rounds - i, requeue).0
        invariant Skipped(old(queue), rounds, requeue).1 == Skipped(queue, rounds - i, requeue).1
      {
        if queue == [] {
          break;
        }
        SkippedStep(queue, rounds - i, requeue, removedTracks);
        var l := queue[0];
        queue := queue[1..];
        removedTracks := removedTracks + [l];
        if requeue {
          l := l.(repeat := 0);
          queue := queue + [l];
        }
        i := i + 1;
      }
    }

    /** `broken` tells that the position passes the test on the length of the queue
        although it lies outside, so that the iterator made of it points nowhere:
        that happens exactly where one plus the position wraps around to 0. */
    method RemoveTrack(pos: nat, amount: nat, to: nat) returns (removed: nat, broken: bool)
      requires OffsetOk(View()) && pos <= SIZE_MAX && |queue| < SIZE_MAX
      modifies this
      ensures broken <==> pos == SIZE_MAX && !(amount == 0 && to == SIZE_MAX)
      ensures !broken ==> View() == Remove(old(View()), pos, amount, to)
      ensures !broken ==> removed == |old(queue)| - |queue|
    {
      if pos == 0 || (amount == 0 && to == SIZE_MAX) {
        return 0, false;
      }
      var moved := ResetShifted();
      removed, broken := RemoveFromReset(pos, amount, to);
    }

    /** `remove_track` from where the offset is reset. */
    method RemoveFromReset(pos: nat, amount: nat, to: nat) returns (removed: nat, broken: bool)
      requires pos <= SIZE_MAX && |queue| < SIZE_MAX
      modifies this
      ensures broken <==> pos == SIZE_MAX
      ensures !broken ==> View() == RemoveFrom(old(View()), pos, Removable(|old(queue)|, pos, amount, to))
      ensures !broken ==> removed == |old(queue)| - |queue|
    {
      var siz := |queue|;
      if (pos + 1) % TWO_64 > siz {
        return 0, false;
      }
      if pos > siz {
        return 0, true;
      }
      var n := amount;
      if to != SIZE_MAX && to > pos {
        n := to - pos;
      }
      var max := siz - pos;
      if n > max {
        n := max;
      }
      EraseAt(pos, n);
      return n, false;
    }

    /** The loop of `remove_track`. */
    method EraseAt(pos: nat, amount: nat)
      requires pos + amount <= |queue|
      modifies this
      ensures View() == old(View()).(queue := Cut(old(queue), pos, amount))
    {
      var a := 0;
      while pos < |queue|
        invariant a <= amount && View() == old(View()).(queue := Cut(old(queue), pos, a))
        decreases amount - a
      {
        if a == amount {
          break;
        }
        CutStep(old(queue), pos, a);
        queue := queue[..pos] + queue[pos + 1..];
        a := a + 1;
      }
    }

    method RemoveTrackByUser(userId: nat) returns (removed: nat)
      modifies this
      ensures View() == RemoveByUser(old(View()), userId)
      ensures removed == |old(queue)| - |queue|
    {
      removed := 0;
      if userId == 0 {
        return;
      }
      ghost var start := View();
      ghost var kept := RemoveByUser(start, userId).queue;
      var i := 0;
      while i < |queue|
        invariant i <= |queue| && removed == |start.queue| - |queue|
        invariant View() == start.(queue := queue)
        invariant if i == 0 then queue == start.queue else Scanned(queue, i, userId) == kept
        decreases |queue| - i
      {
        ScanStep(queue, i, userId);
        if queue[i].userId == userId && i != 0 {
          queue := queue[..i] + queue[i + 1..];
          removed := removed + 1;
          continue;
        }
        i := i + 1;
      }
      assert queue[i..] == [];
    }

    method CurrentTrackIsFirstTrack() returns (same: bool)
      ensures same <==> queue != [] && currentTrack.filename == queue[0].filename
    {
      same := queue != [] && currentTrack.filename == queue[0].filename;
    }

    /** The loop-mode part of `handle_on_track_marker`. */
    method AdvanceQueue(trackMeta: string)
      requires queue != []
      modifies this
      ensures View() == Advance(old(View()), trackMeta == "e")
    {
      var first := CurrentTrackIsFirstTrack();
      if trackMeta == "e" && !stopped && first {
        var rpt := currentTrack.repeat;
        if rpt > 0 && queue[0].repeat > 0 {
          currentTrack := currentTrack.(repeat := currentTrack.repeat - 1);
          queue := queue[0 := queue[0].(repeat := currentTrack.repeat)];
        } else {
          match loopMode
          case NoLoop =>
            queue := queue[1..];
          case LoopQueue =>
            var l := queue[0];
            queue := queue[1..];
            queue := queue + [l];
          case LoopSong =>
          case LoopSongQueue =>
        }
      }
    }

    /** `handle_on_track_marker`; `refused` stands for the guards before the player
        is locked (no client, no player, already playing, disconnecting). */
    method HandleOnTrackMarker(trackMeta: string, refused: bool)
      requires OffsetOk(View())
      modifies this
      ensures View() == if refused then old(View()) else Marker(old(View()), trackMeta == "e")
    {
      if refused || queue == [] {
        return;
      }
      var moved := ResetShifted();
      AdvanceQueue(trackMeta);
      if queue == [] {
        currentTrack := NO_TRACK;
        return;
      }
      queue := queue[0 := queue[0].(skipVote := [])];
      currentTrack := queue[0];
      queue := queue[0 := queue[0].(seekTo := "")];
      stopped := false;
    }

    /** The queue part of the previous-track button. */
    method PreviousTrack()
      requires OffsetOk(View())
      modifies this
      ensures View() == Previous(old(View()))
    {
      var moved := ResetShifted();
      BringLastToFront();
    }

    method BringLastToFront()
      modifies this
      ensures View() == PreviousOf(old(View()))
    {
      ClearRepeats();
      if queue != [] {
        LastToFront(queue);
        queue := [queue[|queue| - 1]] + queue;
        queue := queue[..|queue| - 1];
      }
    }

    /** The queue part of the move command. */
    method MoveTrack(from: int, target: int)
      modifies this
      ensures View() == Move(old(View()), from, target)
    {
      var maxTo := |queue| - 1;
      if 2 > maxTo {
        return;
      }
      var fr, to := from, target;
      if fr < 1 { fr := 1; }
      if to < 1 { to := 1; }
      if fr > maxTo { fr := maxTo; }
      if to > maxTo { to := maxTo; }
      var track := queue[fr];
      if fr != to {
        queue := queue[..fr] + queue[fr + 1..];
        queue := queue[..to] + [track] + queue[to..];
      }
    }

    /** The reverse option of the queue command; `siz` is the length of a copy of
        the queue, and reading past the end of the live queue throws. */
    method ReverseOption(siz: nat) returns (threw: bool)
      requires OffsetOk(View())
      modifies this
      ensures (if threw then Thrown(View()) else Done(View())) == ReverseQueue(old(View()), siz)
    {
      var moved := ResetShifted();
      threw := false;
      if siz < 3 {
        return;
      }
      if siz - 1 >= |queue| {
        return true;
      }
      var t := queue[0];
      var newQueue := BackToFront(queue, siz);
      queue := [];
      queue := newQueue;
      queue := [t] + queue;
    }

    method ShuffleQueue(draws: seq<nat>) returns (shuffled: bool)
      requires OffsetOk(View()) && |draws| >= |queue|
      modifies this
      ensures View() == Shuffle(old(View()), draws)
      ensures shuffled <==> |old(queue)| >= 3
    {
      var siz := |queue|;
      if siz < 3 {
        return false;
      }
      var moved := ResetShifted();
      var b := ShuffleIndexes(siz - 1, draws);
      var os := queue[0];
      queue := queue[1..];
      var newQueue := InOrder(queue, b);
      PickShuffled(queue, draws);
      queue := [];
      queue := newQueue;
      queue := [os] + queue;
      return true;
    }

    /** Loading a playlist with the `top` option; `fetched` tells of each track, in the
        order in which they are added, whether its details are known or could be had. */
    method LoadPlaylistToTop(playlist: seq<Track>, userId: nat, fetched: seq<bool>)
      requires |fetched| == |playlist|
      modifies this
      ensures View() == AddAllToTop(old(View()), Fetched(Reversed(OwnedBy(playlist, userId)), fetched))
    {
      var toIter: seq<Track> := [];
      for i := 0 to |playlist|
        invariant toIter == Reversed(playlist[..i]) && View() == old(View())
      {
        assert playlist[..i + 1] == playlist[..i] + [playlist[i]];
        ReversedSnoc(playlist[..i], playlist[i]);
        toIter := [playlist[i]] + toIter;
      }
      assert playlist[..|playlist|] == playlist;
      ReversedOwned(playlist, userId);
      ghost var start, all := View(), OwnedBy(toIter, userId);
      for i := 0 to |toIter|
        invariant AddAllToTop(View(), Fetched(all[i..], fetched[i..])) == AddAllToTop(start, Fetched(all, fetched))
      {
        var t := toIter[i].(userId := userId);
        FetchedStep(all, fetched, i);
        ghost var rest := Fetched(all[i + 1..], fetched[i + 1..]);
        assert fetched[i] ==> ([t] + rest)[0] == t && ([t] + rest)[1..] == rest;
        assert [] + rest == rest;
        AddTrack(t, true, 0, fetched[i]);
      }
      assert all[|toIter|..] == [];
      assert AddAllToTop(View(), []) == View();
    }
  }

  /** `shuffle_indexes`; an `int` holds each position drawn. */
  method ShuffleIndexes(len: nat, draws: seq<nat>) returns (ret: seq<int>)
    requires |draws| >= len
    ensures ret == Drawn(Iota(len), draws)
    ensures forall i | 0 <= i < |ret| :: 0 <= ret[i] < len
  {
    ret := [];
    var ori: seq<int> := [];
    for i := 0 to len
      invariant ori == Iota(i)
    {
      ori := ori + [i];
    }
    ghost var all := Drawn(ori, draws);
    while ori != []
      invariant |ori| + |ret| == len
      invariant ret + Drawn(ori, draws[|ret|..]) == all
      decreases |ori|
    {
      var r := Selected(draws[|ret|], |ori|);
      DrawStep(ori, draws, ret);
      ret := ret + [ori[r]];
      ori := ori[..r] + ori[r + 1..];
    }
    DrawnWithin(Iota(len), draws, len);
  }

  /** The loop of the reverse option, over positions `siz - 1` down to 1. */
  method BackToFront(q: seq<Track>, siz: nat) returns (newQueue: seq<Track>)
    requires 1 <= siz <= |q|
    ensures newQueue == Reversed(q[1..siz])
  {
    newQueue := [];
    var i := siz - 1;
    while i > 0
      invariant 0 <= i < siz
      invariant newQueue + Reversed(q[1..i + 1]) == Reversed(q[1..siz])
    {
      ReversedSnoc(q[1..i], q[i]);
      assert q[1..i] + [q[i]] == q[1..i + 1];
      newQueue := newQueue + [q[i]];
      i := i - 1;
    }
  }

  /** The loop of `shuffle` over the positions it drew. */
  method InOrder(q: seq<Track>, order: seq<int>) returns (newQueue: seq<Track>)
    requires forall i | 0 <= i < |order| :: 0 <= order[i] < |q|
    ensures newQueue == Pick(q, order)
  {
    newQueue := [];
    for j := 0 to |order|
      invariant newQueue == Pick(q, order)[..j]
    {
      newQueue := newQueue + [q[order[j]]];
    }
  }

  lemma SkippedStep(q: seq<Track>, k: nat, requeue: bool, before: seq<Track>)
    requires q != [] && k > 0
    ensures var next := q[1..] + if requeue then [Settled(q[0])] else [];
            && before + Skipped(q, k, requeue).0 == (before + [q[0]]) + Skipped(next, k - 1, requeue).0
            && Skipped(q, k, requeue).1 == Skipped(next, k - 1, requeue).1
    ensures q[1..] + [] == q[1..]
  {
    var next := q[1..] + if requeue then [Settled(q[0])] else [];
    assert before + ([q[0]] + Skipped(next, k - 1, requeue).0) == (before + [q[0]]) + Skipped(next, k - 1, requeue).0;
  }

  lemma LastToFront(q: seq<Track>)
    requires q != []
    ensures ([q[|q| - 1]] + q)[..|q|] == [q[|q| - 1]] + q[..|q| - 1]
  {
  }

  lemma DrawFirst<T>(pool: seq<T>, draws: seq<nat>)
    requires 0 < |pool| <= |draws|
    ensures var r := Selected(draws[0], |pool|); Drawn(pool, draws) == [pool[r]] + Drawn(Erase(pool, r), draws[1..])
  {
  }

  lemma Regroup<T>(a: seq<T>, b: seq<T>, c: seq<T>)
    ensures a + (b + c) == (a + b) + c
  {
  }

  lemma DrawStep(pool: seq<int>, draws: seq<nat>, ret: seq<int>)
    requires pool != [] && |ret| + |pool| <= |draws|
    ensures var r := Selected(draws[|ret|], |pool|);
            ret + Drawn(pool, draws[|ret|..]) == (ret + [pool[r]]) + Drawn(Erase(pool, r), draws[|ret| + 1..])
  {
    var later := draws[|ret|..];
    assert later[0] == draws[|ret|] && later[1..] == draws[|ret| + 1..];
    var r := Selected(later[0], |pool|);
    DrawFirst(pool, later);
    Regroup(ret, [pool[r]], Drawn(Erase(pool, r), later[1..]));
  }

  function Cut(q: seq<Track>, pos: nat, n: nat): seq<Track>
    requires pos + n <= |q|
  {
    q[..pos] + q[pos + n..]
  }

  lemma CutStep(q: seq<Track>, pos: nat, n: nat)
    requires pos + n < |q|
    ensures Erase(Cut(q, pos, n), pos) == Cut(q, pos, n + 1)
  {
  }

  /** The queue once positions up to `i` have been scanned and the rest cleaned. */
  ghost function Scanned(q: seq<Track>, i: nat, user: nat): seq<Track>
    requires i <= |q|
  {
    q[..i] + NotOf(q[i..], user)
  }

  lemma ScanStep(q: seq<Track>, i: nat, user: nat)
    requires i < |q|
    ensures i == 0 ==> Scanned(q, 1, user) == [q[0]] + NotOf(q[1..], user)
    ensures q[i].userId == user ==> Scanned(Erase(q, i), i, user) == Scanned(q, i, user)
    ensures q[i].userId != user ==> Scanned(q, i + 1, user) == Scanned(q, i, user)
  {
    assert q[i..][1..] == q[i + 1..];
    assert Erase(q, i)[..i] == q[..i] && Erase(q, i)[i..] == q[i + 1..];
    assert q[..i] + ([q[i]] + NotOf(q[i + 1..], user)) == q[..i + 1] + NotOf(q[i + 1..], user);
  }

  lemma {:induction false} ReversedSnoc<T>(q: seq<T>, t: T)
    ensures Reversed(q + [t]) == [t] + Reversed(q)
  {
    if q == [] {
      assert q + [t] == [t] && [t][1..] == [];
    } else {
      assert (q + [t])[1..] == q[1..] + [t];
      ReversedSnoc(q[1..], t);
    }
  }

  lemma {:induction false} ReversedOwned(q: seq<Track>, user: nat)
    ensures OwnedBy(Reversed(q), user) == Reversed(OwnedBy(q, user))
  {
    if q != [] {
      ReversedOwned(q[1..], user);
      assert OwnedBy(q, user)[1..] == OwnedBy(q[1..], user);
      assert OwnedBy(Reversed(q), user) == OwnedBy(Reversed(q[1..]), user) + [q[0].(userId := user)];
    }
  }

  lemma FetchedStep(tracks: seq<Track>, fetched: seq<bool>, i: nat)
    requires i < |tracks| == |fetched|
    ensures Fetched(tracks[i..], fetched[i..])
         == (if fetched[i] then [tracks[i]] else []) + Fetched(tracks[i + 1..], fetched[i + 1..])
  {
    assert tracks[i..][1..] == tracks[i + 1..] && fetched[i..][1..] == fetched[i + 1..];
  }

  /** Whatever the draws, drawing takes every element once. */
  lemma {:induction false} DrawnPermutes<T>(pool: seq<T>, draws: seq<nat>)
    requires |draws| >= |pool|
    ensures |Drawn(pool, draws)| == |pool| && multiset(Drawn(pool, draws)) == multiset(pool)
    decreases |pool|
  {
    if pool != [] {
      var r := Selected(draws[0], |pool|);
      DrawnPermutes(Erase(pool, r), draws[1..]);
      assert pool == pool[..r] + [pool[r]] + pool[r + 1..];
      assert multiset(pool) == multiset(Erase(pool, r)) + multiset{pool[r]};
    }
  }

  lemma DrawnWithin(positions: seq<int>, draws: seq<nat>, bound: nat)
    requires |draws| >= |positions| && (forall i | 0 <= i < |positions| :: 0 <= positions[i] < bound)
    ensures |Drawn(positions, draws)| == |positions|
    ensures forall i | 0 <= i < |positions| :: 0 <= Drawn(positions, draws)[i] < bound
  {
    DrawnPermutes(positions, draws);
    forall i | 0 <= i < |positions| ensures 0 <= Drawn(positions, draws)[i] < bound {
      assert Drawn(positions, draws)[i] in multiset(positions);
    }
  }

  /** Drawing positions and picking the tracks there is drawing tracks. */
  lemma {:induction false} PickDrawn<T>(q: seq<T>, positions: seq<int>, draws: seq<nat>, drawn: seq<int>)
    requires |draws| >= |positions| && (forall i | 0 <= i < |positions| :: 0 <= positions[i] < |q|)
    requires drawn == Drawn(positions, draws) && (forall i | 0 <= i < |drawn| :: 0 <= drawn[i] < |q|)
    ensures Pick(q, drawn) == Drawn(Pick(q, positions), draws)
    decreases |positions|
  {
    if positions == [] {
      assert Pick(q, drawn) == [];
    } else {
      var r := Selected(draws[0], |positions|);
      var rest := Erase(positions, r);
      DrawnWithin(rest, draws[1..], |q|);
      PickDrawn(q, rest, draws[1..], Drawn(rest, draws[1..]));
      assert Pick(q, rest) == Erase(Pick(q, positions), r);
      assert drawn == [positions[r]] + Drawn(rest, draws[1..]);
      assert Pick(q, drawn) == [q[positions[r]]] + Pick(q, Drawn(rest, draws[1..]));
    }
  }

  lemma PickShuffled<T>(q: seq<T>, draws: seq<nat>)
    requires |draws| >= |q|
    ensures forall i | 0 <= i < |Drawn(Iota(|q|), draws)| :: 0 <= Drawn(Iota(|q|), draws)[i] < |q|
    ensures Pick(q, Drawn(Iota(|q|), draws)) == Drawn(q, draws)
  {
    DrawnWithin(Iota(|q|), draws, |q|);
    PickDrawn(q, Iota(|q|), draws, Drawn(Iota(|q|), draws));
    assert Pick(q, Iota(|q|)) == q;
  }
}
