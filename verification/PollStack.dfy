/** Dropping the descriptors that polling reported an error for, in place. */
module PollStack {

  /** The bits of `revents` that the code tests. */
  datatype Revents = Revents(pollIn: bool, pollErr: bool, pollHup: bool, pollNval: bool)

  /** `struct pollfd` */
  datatype PollFd = PollFd(fd: int, events: int, revents: Revents)

  predicate ReventsHasErr(revents: Revents) {
    revents.pollErr || revents.pollHup || revents.pollNval
  }

  /** What the array says of a descriptor, apart from the last poll. */
  function Watch(p: PollFd): (int, int) {
    (p.fd, p.events)
  }

  /** Of the first `i` descriptors, those without an error, in order. */
  function Kept(pfds: seq<PollFd>, i: nat): (kept: seq<(int, int)>)
    requires i <= |pfds|
    ensures |kept| <= i
  {
    if i == 0 then []
    else Kept(pfds, i - 1) + if ReventsHasErr(pfds[i - 1].revents) then [] else [Watch(pfds[i - 1])]
  }

  /** Their tags. */
  function KeptTags(pfds: seq<PollFd>, tags: seq<char>, i: nat): (kept: seq<char>)
    requires i <= |pfds| == |tags|
    ensures |kept| == |Kept(pfds, i)|
  {
    if i == 0 then []
    else KeptTags(pfds, tags, i - 1) + if ReventsHasErr(pfds[i - 1].revents) then [] else [tags[i - 1]]
  }

  /** Of the first `i` descriptors, those with an error, in order. */
  function Dropped(pfds: seq<PollFd>, i: nat): (dropped: seq<int>)
    requires i <= |pfds|
    ensures |dropped| + |Kept(pfds, i)| == i
  {
    if i == 0 then []
    else Dropped(pfds, i - 1) + if ReventsHasErr(pfds[i - 1].revents) then [pfds[i - 1].fd] else []
  }

  /** The positions from `i` on that have an error. */
  function ErrorsFrom(pfds: seq<PollFd>, i: nat): (errors: seq<nat>)
    requires i <= |pfds|
    ensures forall j | 0 <= j < |errors| :: i <= errors[j]
    decreases |pfds| - i
  {
    if i == |pfds| then []
    else if ReventsHasErr(pfds[i].revents) then [i] + ErrorsFrom(pfds, i + 1)
    else ErrorsFrom(pfds, i + 1)
  }

  /** The first loop: the positions with an error. */
  method CollectErrors(pfds: array<PollFd>, fdsiz: nat) returns (removedFds: seq<nat>)
    requires fdsiz <= pfds.Length
    ensures removedFds == ErrorsFrom(pfds[..fdsiz], 0)
  {
    removedFds := [];
    ghost var all := pfds[..fdsiz];
    for i := 0 to fdsiz
      invariant removedFds + ErrorsFrom(all, i) == ErrorsFrom(all, 0)
    {
      if !ReventsHasErr(pfds[i].revents) {
        continue;
      }
      removedFds := removedFds + [i];
    }
  }

  /** The inner loop of the second one: looks position `i` up and takes it out. */
  method TakeOut(removed: seq<nat>, i: nat) returns (removedFds: seq<nat>, found: bool)
    requires forall j | 1 <= j < |removed| :: removed[j] > i
    ensures found <==> removed != [] && removed[0] == i
    ensures removedFds == if found then removed[1..] else removed
  {
    removedFds := removed;
    var ri := 0;
    while ri < |removedFds|
      invariant ri <= |removedFds| && removedFds == removed
      invariant ri > 0 ==> removed[0] != i
    {
      if removedFds[ri] != i {
        ri := ri + 1;
        continue;
      }
      removedFds := removedFds[..ri] + removedFds[ri + 1..];
      return removedFds, true;
    }
    found := false;
  }

  /** The first `n` entries of the array watch these. */
  ghost predicate Watches(pfds: array<PollFd>, watched: seq<(int, int)>)
    reads pfds
  {
    |watched| <= pfds.Length && forall j | 0 <= j < |watched| :: Watch(pfds[j]) == watched[j]
  }

  /** The tracker once the first `i` descriptors have been dealt with. */
  function TrackerAt(pfds: seq<PollFd>, tags: seq<char>, i: nat): (t: seq<char>)
    requires i <= |pfds| == |tags|
    ensures |t| == |Kept(pfds, i)| + |tags| - i
  {
    KeptTags(pfds, tags, i) + tags[i..]
  }

  lemma TrackerNext(pfds: seq<PollFd>, tags: seq<char>, i: nat)
    requires i < |pfds| == |tags|
    ensures var k, t := |Kept(pfds, i)|, TrackerAt(pfds, tags, i);
            TrackerAt(pfds, tags, i + 1) == if ReventsHasErr(pfds[i].revents) then t[..k] + t[k + 1..] else t
  {
    var kept, t := KeptTags(pfds, tags, i), TrackerAt(pfds, tags, i);
    assert t == kept + [tags[i]] + tags[i + 1..];
    assert t[..|kept|] == kept && t[|kept| + 1..] == tags[i + 1..];
  }

  lemma ErrorsNext(pfds: seq<PollFd>, i: nat)
    requires i < |pfds|
    ensures var errors := ErrorsFrom(pfds, i);
            && (ReventsHasErr(pfds[i].revents) <==> errors != [] && errors[0] == i)
            && ErrorsFrom(pfds, i + 1) == (if ReventsHasErr(pfds[i].revents) then errors[1..] else errors)
            && (forall j | 1 <= j < |errors| :: errors[j] > i)
  {
    assert ReventsHasErr(pfds[i].revents) ==> ErrorsFrom(pfds, i)[1..] == ErrorsFrom(pfds, i + 1);
  }

  lemma KeptNext(pfds: seq<PollFd>, i: nat)
    requires i < |pfds|
    ensures Kept(pfds, i + 1) == Kept(pfds, i) + if ReventsHasErr(pfds[i].revents) then [] else [Watch(pfds[i])]
    ensures |Kept(pfds, i + 1)| == |Kept(pfds, i)| + if ReventsHasErr(pfds[i].revents) then 0 else 1
    ensures Dropped(pfds, i + 1) == Dropped(pfds, i) + if ReventsHasErr(pfds[i].revents) then [pfds[i].fd] else []
  {
  }

  /** Copies the watched descriptor of entry `i` to entry `i - back`, right after
      the ones that are kept. */
  method MoveBack(pfds: array<PollFd>, i: nat, back: nat, ghost kept: seq<(int, int)>)
    requires back <= i < pfds.Length && Watches(pfds, kept) && |kept| == i - back
    modifies pfds
    ensures Watches(pfds, kept) && Watches(pfds, kept + [Watch(old(pfds[i]))])
    ensures forall j | i < j < pfds.Length :: pfds[j] == old(pfds[j])
  {
    if back > 0 {
      pfds[i - back] := pfds[i - back].(fd := pfds[i].fd);
      pfds[i - back] := pfds[i - back].(events := pfds[i].events);
    }
  }

  /** The bookkeeping of the second loop for entry `i`, whose descriptor is `fd`. */
  method Untrack(ghost was: seq<PollFd>, ghost tags: seq<char>, i: nat, fd: int, mvBack: nat,
                 removed: seq<nat>, tracker: seq<char>, closed: seq<int>)
    returns (removed': seq<nat>, tracker': seq<char>, closed': seq<int>, isRemoved: bool)
    requires i < |was| == |tags| && fd == was[i].fd && mvBack == i - |Kept(was, i)|
    requires removed == ErrorsFrom(was, i) && tracker == TrackerAt(was, tags, i) && closed == Dropped(was, i)
    ensures isRemoved <==> ReventsHasErr(was[i].revents)
    ensures removed' == ErrorsFrom(was, i + 1)
    ensures tracker' == TrackerAt(was, tags, i + 1) && closed' == Dropped(was, i + 1)
  {
    TrackerNext(was, tags, i);
    ErrorsNext(was, i);
    KeptNext(was, i);
    tracker', closed' := tracker, closed;
    removed', isRemoved := TakeOut(removed, i);
    if isRemoved {
      closed' := closed + [fd];
      tracker' := tracker[..i - mvBack] + tracker[i - mvBack + 1..];
    }
  }

  /** `manage_pollfds_stack`: closes each descriptor with an error once, in order,
      and moves the others to the front of the array, still aligned with their
      tags.  `tracker` is `fd_tracker` after the call, `closed` what was passed to
      `close`. */
  method ManagePollfdsStack(pfds: array<PollFd>, fdTracker: seq<char>)
    returns (tracker: seq<char>, closed: seq<int>, n: nat)
    requires |fdTracker| <= pfds.Length
    modifies pfds
    ensures n == |tracker|
    ensures tracker == KeptTags(old(pfds[..|fdTracker|]), fdTracker, |fdTracker|)
    ensures closed == Dropped(old(pfds[..|fdTracker|]), |fdTracker|)
    ensures Watches(pfds, Kept(old(pfds[..|fdTracker|]), |fdTracker|))
    ensures forall j | |fdTracker| <= j < pfds.Length :: pfds[j] == old(pfds[j])
  {
    var fdsiz := |fdTracker|;
    ghost var was := pfds[..fdsiz];
    var removedFds := CollectErrors(pfds, fdsiz);
    tracker, closed := fdTracker, [];
    var mvBack := 0;
    for i := 0 to fdsiz
      invariant mvBack == i - |Kept(was, i)|
      invariant removedFds == ErrorsFrom(was, i)
      invariant tracker == TrackerAt(was, fdTracker, i)
      invariant closed == Dropped(was, i)
      invariant Watches(pfds, Kept(was, i))
      invariant forall j | i <= j < pfds.Length :: pfds[j] == old(pfds[j])
    {
      assert pfds[i] == was[i];
      var isRemoved := false;
      removedFds, tracker, closed, isRemoved :=
        Untrack(was, fdTracker, i, pfds[i].fd, mvBack, removedFds, tracker, closed);
      KeptNext(was, i);
      ghost var kept := Kept(was, i);
      MoveBack(pfds, i, mvBack, kept);
      if isRemoved {
        assert kept + [] == kept;
        mvBack := mvBack + 1;
      }
    }
    n := |tracker|;
  }

  // ------------------------------------------------- what the specification says

  /** The conditions under which a descriptor is dropped: an error, a hang-up, or a
      descriptor that is not open. */
  predicate Broken(p: PollFd) {
    p.revents.pollErr || p.revents.pollHup || p.revents.pollNval
  }

  /** A descriptor that is not broken stays, right after the ones that stay before it,
      and its tag stays at the same index; a broken one is closed, right after the
      ones closed before it.  By their lengths, nothing else is kept or closed. */
  lemma {:induction false} KeptInOrder(pfds: seq<PollFd>, tags: seq<char>, i: nat, n: nat)
    requires i < n <= |pfds| == |tags|
    ensures !Broken(pfds[i]) ==>
              var j := |Kept(pfds, i)|;
              && j < |Kept(pfds, n)| && Kept(pfds, n)[j] == (pfds[i].fd, pfds[i].events)
              && KeptTags(pfds, tags, n)[j] == tags[i]
    ensures Broken(pfds[i]) ==>
              var j := |Dropped(pfds, i)|;
              j < |Dropped(pfds, n)| && Dropped(pfds, n)[j] == pfds[i].fd
    ensures |Kept(pfds, n)| + |Dropped(pfds, n)| == n
  {
    if i < n - 1 {
      KeptInOrder(pfds, tags, i, n - 1);
    }
  }
}
