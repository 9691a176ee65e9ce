/** A guild's player as a value, and what each operation on its queue makes of
    it.  The playing track is at index `shifted` of the queue: tracks added to the
    top push it back, and `Reset` brings it to the front again. */
module PlayerState {
  import opened MachineWords
  import opened Sequences

  datatype Track = Track(
    filename: string, userId: nat, repeat: int, currentByte: int, seekTo: string, skipVote: seq<nat>)

  /** A default-constructed `MCTrack`. */
  const NO_TRACK := Track("", 0, 0, 0, "", [])

  datatype LoopMode = NoLoop | LoopSong | LoopQueue | LoopSongQueue

  datatype State = State(queue: seq<Track>, shifted: nat, current: Track, loopMode: LoopMode, stopped: bool)

  predicate OffsetOk(s: State) {
    s.shifted == 0 || s.shifted < |s.queue|
  }

  /** `reset_shifted` */
  function Reset(s: State): (r: State)
    requires OffsetOk(s)
    ensures |r.queue| == |s.queue| && r.shifted == 0
  {
    if s.queue != [] && s.shifted > 0
    then s.(queue := [s.queue[s.shifted]] + Erase(s.queue, s.shifted), shifted := 0)
    else s.(shifted := 0)
  }

  /** `add_track`, for a track whose details are known. */
  function Add(s: State, track: Track, top: bool, slip: int): State {
    var size := |s.queue|;
    if top || slip == 1 then
      s.(queue := [track] + s.queue, shifted := if s.shifted < size then s.shifted + 1 else s.shifted)
    else if slip > 1 && size > slip then s.(queue := Insert(s.queue, slip, track))
    else s.(queue := s.queue + [track])
  }

  function Settled(t: Track): Track {
    t.(repeat := 0)
  }

  /** `k` rounds of taking the front track off, re-queueing it or not: the tracks
      taken, and the queue left. */
  function Skipped(q: seq<Track>, k: nat, requeue: bool): (seq<Track>, seq<Track>)
    decreases k
  {
    if k == 0 || q == [] then ([], q)
    else
      var (taken, rest) := Skipped(q[1..] + (if requeue then [Settled(q[0])] else []), k - 1, requeue);
      ([q[0]] + taken, rest)
  }

  function Clamp(x: int, low: int, high: int): int
    requires low <= high
  {
    if x < low then low else if x > high then high else x
  }

  function SettleFront(q: seq<Track>): seq<Track> {
    if q == [] then q else [Settled(q[0])] + q[1..]
  }

  /** The current track, if there is one, repeats no more. */
  function SettleCurrent(t: Track): Track {
    if t.filename != "" then Settled(t) else t
  }

  predicate LoopsSong(mode: LoopMode) {
    mode == LoopSong || mode == LoopSongQueue
  }

  /** How many tracks `skip_queue` takes off. */
  function Rounds(s: State, amount: int, popCurrent: bool): nat {
    Clamp(amount, 1, 1000) - if popCurrent || LoopsSong(s.loopMode) then 0 else 1
  }

  /** Whether it puts them back at the end. */
  predicate Requeues(s: State, remove: bool, pushBack: bool) {
    !remove && (pushBack || s.loopMode == LoopSongQueue || s.loopMode == LoopQueue)
  }

  /** `skip_queue` once the offset is reset: the tracks taken off, and the player
      after it. */
  function SkipFromFront(s: State, amount: int, remove: bool, popCurrent: bool, pushBack: bool): (seq<Track>, State) {
    var (taken, rest) := Skipped(SettleFront(s.queue), Rounds(s, amount, popCurrent), Requeues(s, remove, pushBack));
    (taken, s.(queue := rest, current := SettleCurrent(s.current)))
  }

  /** `skip_queue` */
  function Skip(s: State, amount: int, remove: bool, popCurrent: bool, pushBack: bool): (seq<Track>, State)
    requires OffsetOk(s)
  {
    SkipFromFront(Reset(s), amount, remove, popCurrent, pushBack)
  }

  /** How many tracks `remove_track` removes from position `pos` of a queue of
      `size`; a `to` of `SIZE_MAX` stands for its default -1. */
  function Removable(size: nat, pos: nat, amount: nat, to: nat): nat {
    if pos + 1 > size then 0
    else
      var wanted := if to != SIZE_MAX && to > pos then to - pos else amount;
      if wanted > size - pos then size - pos else wanted
  }

  /** `remove_track` */
  function Remove(s: State, pos: nat, amount: nat, to: nat): State
    requires OffsetOk(s)
  {
    if pos == 0 || (amount == 0 && to == SIZE_MAX) then s
    else RemoveFrom(Reset(s), pos, Removable(|s.queue|, pos, amount, to))
  }

  function RemoveFrom(s: State, pos: nat, n: nat): State {
    if pos + n > |s.queue| then s else s.(queue := s.queue[..pos] + s.queue[pos + n..])
  }

  /** The tracks that are not of this user. */
  function NotOf(q: seq<Track>, user: nat): seq<Track> {
    if q == [] then []
    else (if q[0].userId == user then [] else [q[0]]) + NotOf(q[1..], user)
  }

  /** `remove_track_by_user`, which spares the front track and does not reset the
      offset. */
  function RemoveByUser(s: State, user: nat): State {
    if user == 0 || s.queue == [] then s else s.(queue := [s.queue[0]] + NotOf(s.queue[1..], user))
  }

  /** The `voice_track_marker` handler, past its guards: what is played next, given
      whether the marker says that a stream ended. */
  function Marker(s: State, isEnd: bool): State
    requires OffsetOk(s)
  {
    if s.queue == [] then s else Present(Advance(Reset(s), isEnd))
  }

  /** What the handler does to the queue when a stream ended. */
  function Advance(s: State, isEnd: bool): State
    requires s.queue != []
  {
    var front := s.queue[0];
    if !isEnd || s.stopped || s.current.filename != front.filename then s
    else if s.current.repeat > 0 && front.repeat > 0 then
      var left := s.current.repeat - 1;
      s.(current := s.current.(repeat := left), queue := [front.(repeat := left)] + s.queue[1..])
    else if s.loopMode == NoLoop then s.(queue := s.queue[1..])
    else if s.loopMode == LoopQueue then s.(queue := s.queue[1..] + [front])
    else s
  }

  /** How it makes the front track the current one. */
  function Present(s: State): State {
    if s.queue == [] then s.(current := NO_TRACK)
    else
      var front := s.queue[0].(skipVote := []);
      s.(current := front, queue := [front.(seekTo := "")] + s.queue[1..], stopped := false)
  }

  /** The previous-track button: the last track comes to the front. */
  function Previous(s: State): State
    requires OffsetOk(s)
  {
    PreviousOf(Reset(s))
  }

  function PreviousOf(s: State): State {
    if s.queue == [] then s.(current := SettleCurrent(s.current))
    else
      var q := SettleFront(s.queue);
      s.(current := SettleCurrent(s.current), queue := [q[|q| - 1]] + q[..|q| - 1])
  }

  /** The clamped position of the move command. */
  function Position(s: State, arg: int): nat
    requires |s.queue| >= 3
  {
    Clamp(arg, 1, |s.queue| - 1)
  }

  /** The move command, which does not reset the offset. */
  function Move(s: State, from: int, to: int): State {
    if |s.queue| < 3 then s
    else
      var f, t := Position(s, from), Position(s, to);
      if f == t then s else s.(queue := Insert(Erase(s.queue, f), t, s.queue[f]))
  }

  function Reversed<T>(q: seq<T>): (r: seq<T>)
    ensures |r| == |q|
  {
    if q == [] then [] else Reversed(q[1..]) + [q[0]]
  }

  datatype ReverseResult = Thrown(state: State) | Done(state: State)

  /** The reverse option of the queue command: `size` is the length of a copy of
      the queue taken before the player was locked. */
  function ReverseQueue(s: State, size: nat): ReverseResult
    requires OffsetOk(s)
  {
    ReverseRest(Reset(s), size)
  }

  function ReverseRest(s: State, size: nat): ReverseResult {
    if size < 3 then Done(s)
    else if size > |s.queue| then Thrown(s)
    else Done(s.(queue := [s.queue[0]] + Reversed(s.queue[1..size])))
  }

  /** The tracks at these positions. */
  function Pick<T>(q: seq<T>, order: seq<int>): (p: seq<T>)
    requires forall i | 0 <= i < |order| :: 0 <= order[i] < |q|
    ensures |p| == |order|
    ensures forall i | 0 <= i < |order| :: p[i] == q[order[i]]
  {
    seq(|order|, i requires 0 <= i < |order| => q[order[i]])
  }

  /** The position that a random number selects among `n`. */
  function Selected(random: nat, n: nat): (r: nat)
    requires n > 0
    ensures r < n && (random < n ==> r == random)
  {
    random % n
  }

  /** Taking elements of `pool` one by one, each at a random position. */
  function Drawn<T>(pool: seq<T>, draws: seq<nat>): (d: seq<T>)
    requires |draws| >= |pool|
    ensures |d| == |pool|
    decreases |pool|
  {
    if pool == [] then []
    else
      var r := Selected(draws[0], |pool|);
      [pool[r]] + Drawn(Erase(pool, r), draws[1..])
  }

  function Iota(n: nat): (s: seq<int>)
    ensures |s| == n
    ensures forall i | 0 <= i < n :: s[i] == i
  {
    seq(n, i => i)
  }

  /** `shuffle`, with the random numbers it draws. */
  function Shuffle(s: State, draws: seq<nat>): State
    requires OffsetOk(s) && |draws| >= |s.queue|
  {
    if |s.queue| < 3 then s else ShuffleRest(Reset(s), draws)
  }

  function ShuffleRest(s: State, draws: seq<nat>): State
    requires s.queue != [] && |draws| >= |s.queue|
  {
    s.(queue := [s.queue[0]] + Drawn(s.queue[1..], draws))
  }

  /** Adding tracks to the top one after the other. */
  function AddAllToTop(s: State, tracks: seq<Track>): State
    decreases |tracks|
  {
    if tracks == [] then s else AddAllToTop(Add(s, tracks[0], true, 0), tracks[1..])
  }

  /** The tracks whose details could be had, in order. */
  function Fetched(tracks: seq<Track>, fetched: seq<bool>): seq<Track>
    requires |fetched| == |tracks|
  {
    if tracks == [] then []
    else (if fetched[0] then [tracks[0]] else []) + Fetched(tracks[1..], fetched[1..])
  }

  function OwnedBy(tracks: seq<Track>, user: nat): (owned: seq<Track>)
    ensures |owned| == |tracks|
    ensures forall i | 0 <= i < |tracks| :: owned[i] == tracks[i].(userId := user)
  {
    seq(|tracks|, i requires 0 <= i < |tracks| => tracks[i].(userId := user))
  }
}
