/** Copying the output of a child process into a file of bounded length. */
module OutputCopier {
  import opened MachineWords

  /** One byte of output, written as the character it encodes. */
  type Bytes = seq<char>

  /** The size of the read buffer. */
  const BSIZE: nat := 4096

  /** The marks around what comes from standard error. */
  datatype Marks = Marks(head: Bytes, tail: Bytes)

  const RULE: Bytes := "========================================"

  /** `err_mark` and `err_mark_end`, with the zero byte that `sizeof` counts. */
  const STDERR_MARKS := Marks(RULE + " V STDERR V " + RULE + "\n\0", "\n" + RULE + " ^ STDERR ^ " + RULE + "\n\0")

  /** `this_iter_outsiz`: the most that one read and its marks come to. */
  function Iteration(isOut: bool, m: Marks): nat {
    BSIZE + if isOut then 0 else |m.head| + |m.tail|
  }

  /** What one pass over a ready descriptor reads, read by read. */
  datatype Drain = Drain(isOut: bool, chunks: seq<Bytes>)

  predicate DrainOk(d: Drain) {
    forall j | 0 <= j < |d.chunks| :: 0 < |d.chunks[j]| <= BSIZE
  }

  function CmpAvailable(want: nat, avail: nat): nat {
    if want > avail then avail else want
  }

  // ------------------------------------------------------------- what it writes

  function Concat(chunks: seq<Bytes>): Bytes {
    if chunks == [] then [] else Concat(chunks[..|chunks| - 1]) + chunks[|chunks| - 1]
  }

  /** What one pass would write without a bound. */
  function Whole(d: Drain, mark: bool, m: Marks): Bytes {
    if d.isOut || !mark || d.chunks == [] then Concat(d.chunks) else m.head + Concat(d.chunks) + m.tail
  }

  /** What all passes would write without a bound. */
  function Uncapped(drains: seq<Drain>, mark: bool, m: Marks): Bytes {
    if drains == [] then []
    else Uncapped(drains[..|drains| - 1], mark, m) + Whole(drains[|drains| - 1], mark, m)
  }

  /** Output cut off at `max` bytes, or all of it when `max` is 0. */
  function Capped(output: Bytes, max: nat): Bytes {
    if max == 0 || |output| <= max then output else output[..max]
  }

  lemma {:induction false} ConcatAppend(a: seq<Bytes>, b: seq<Bytes>)
    ensures Concat(a + b) == Concat(a) + Concat(b)
    decreases |b|
  {
    if b == [] {
      assert a + b == a;
    } else {
      var n := |b| - 1;
      assert (a + b)[..|a + b| - 1] == a + b[..n];
      ConcatAppend(a, b[..n]);
      assert Concat(a) + (Concat(b[..n]) + b[n]) == Concat(a) + Concat(b[..n]) + b[n];
    }
  }

  /** The output is that of the passes in their order. */
  lemma {:induction false} UncappedAppend(a: seq<Drain>, b: seq<Drain>, mark: bool, m: Marks)
    ensures Uncapped(a + b, mark, m) == Uncapped(a, mark, m) + Uncapped(b, mark, m)
    decreases |b|
  {
    if b == [] {
      assert a + b == a;
    } else {
      var n := |b| - 1;
      assert (a + b)[..|a + b| - 1] == a + b[..n];
      UncappedAppend(a, b[..n], mark, m);
      var whole := Whole(b[n], mark, m);
      assert Uncapped(a, mark, m) + (Uncapped(b[..n], mark, m) + whole)
          == Uncapped(a, mark, m) + Uncapped(b[..n], mark, m) + whole;
    }
  }

  /** One pass writes its reads in their order; what comes from standard error, when it
      is to be marked and there is any, stands between one head and one tail. */
  lemma PassIsMarkedOnce(isOut: bool, a: seq<Bytes>, x: Bytes, b: seq<Bytes>, mark: bool, m: Marks)
    ensures var text := Concat(a) + x + Concat(b);
            Uncapped([Drain(isOut, a + [x] + b)], mark, m)
            == if !isOut && mark then m.head + text + m.tail else text
    ensures Uncapped([Drain(isOut, [])], mark, m) == []
  {
    ConcatAppend(a + [x], b);
    ConcatAppend(a, [x]);
    assert [x][..0] == [] && Concat([x]) == [] + x == x;
    var d, none := Drain(isOut, a + [x] + b), Drain(isOut, []);
    assert [d][..0] == [] && [none][..0] == [];
    assert [] + Whole(d, mark, m) == Whole(d, mark, m);
  }

  // ----------------------------------------------------------------- arithmetic

  /** What the code computes as the bytes it may write for one read, in 64 bits. */
  function Budget(outSiz: nat, iter: nat, max: nat): int {
    var r := (outSiz + iter) % TWO_64;
    if max > 0 && r > max then (iter - (r - max)) % TWO_64 else iter
  }

  /** It is the room left exactly when the sum does not wrap around. */
  lemma BudgetExactly(outSiz: nat, iter: nat, max: nat)
    requires 0 < max < TWO_64 && outSiz <= max && iter < TWO_64
    ensures Budget(outSiz, iter, max) == CmpAvailable(iter, max - outSiz) <==> outSiz + iter < TWO_64
  {
    if outSiz + iter >= TWO_64 {
      assert (outSiz + iter) % TWO_64 == outSiz + iter - TWO_64;
    }
  }

  /** The arithmetic keeps every file within its bound exactly when the bound leaves
      room in 64 bits for one read with its marks. */
  lemma BoundIsSafeExactly(iter: nat, max: nat)
    requires 0 < max < TWO_64 && 0 < iter < TWO_64
    ensures (forall outSiz: nat | outSiz <= max :: Budget(outSiz, iter, max) <= max - outSiz) <==> max + iter < TWO_64
  {
    if max + iter >= TWO_64 {
      assert (max + iter) % TWO_64 == max + iter - TWO_64;
      assert Budget(max, iter, max) == iter;
    }
  }

  // ---------------------------------------------------------------- the copying

  /** Writing `x` where `avail` bytes are available. */
  lemma WriteCapped(output: Bytes, x: Bytes, max: nat, avail: nat)
    requires max > 0 ==> CmpAvailable(|x|, avail) == CmpAvailable(|x|, max - |Capped(output, max)|)
    requires max == 0 ==> |x| <= avail
    ensures Capped(output + x, max) == Capped(output, max) + x[..CmpAvailable(|x|, avail)]
  {
    var y := x[..CmpAvailable(|x|, avail)];
    if max == 0 || |output| + |x| <= max {
      assert y == x;
    } else if |output| <= max {
      assert (output + x)[..max] == output + x[..max - |output|];
    } else {
      assert y == [];
      assert (output + x)[..max] == output[..max];
    }
  }

  /** The bound leaves room in 64 bits for one read with its marks. */
  predicate Safe(max: nat, m: Marks) {
    max + Iteration(false, m) < TWO_64
  }

  /** The marks that the source writes, and which bounds are safe with them. */
  lemma SafeBounds(max: nat)
    ensures STDERR_MARKS.tail != [] && Safe(0, STDERR_MARKS)
    ensures Safe(max, STDERR_MARKS) <==> max < TWO_64 - 4285
  {
    assert |RULE| == 40;
    assert |" V STDERR V "| == 12 && |" ^ STDERR ^ "| == 12;
  }

  /** `avail` lets as many of `n` bytes through as the bound does. */
  predicate RoomFor(n: nat, avail: nat, size: nat, max: nat) {
    if max == 0 then n <= avail
    else size <= max && CmpAvailable(n, avail) == CmpAvailable(n, max - size)
  }

  /** The file is the output cut off at the bound, and the counter its length. */
  ghost predicate InStep(file: Bytes, size: nat, max: nat, output: Bytes) {
    file == Capped(output, max) && (max > 0 ==> size == |file|)
  }

  /** `fwrite` of `x` where `avail` bytes are available.  Under a safe bound the file
      grows by what the bound lets through, and the counters follow. */
  method Fwrite(file: Bytes, size: nat, x: Bytes, avail: nat, max: nat, ghost output: Bytes, ghost safe: bool)
    returns (outfile: Bytes, outSiz: nat, left: nat)
    requires safe ==> max < TWO_64 && InStep(file, size, max, output) && RoomFor(|x|, avail, size, max)
    ensures left == avail - CmpAvailable(|x|, avail)
    ensures outfile == file + x[..CmpAvailable(|x|, avail)]
    ensures safe ==> InStep(outfile, outSiz, max, output + x)
    ensures safe && max > 0 ==> outSiz == size + CmpAvailable(|x|, avail)
  {
    if safe {
      WriteCapped(output, x, max, avail);
    }
    var cW := CmpAvailable(|x|, avail);
    outfile := file + x[..cW];
    outSiz := (size + cW) % TWO_64;
    left := avail - cW;
  }

  /** Output already at its bound does not grow. */
  lemma FullStaysFull(output: Bytes, x: Bytes, max: nat)
    requires max > 0 && |Capped(output, max)| == max
    ensures Capped(output + x, max) == Capped(output, max)
  {
    assert (output + x)[..max] == output[..max];
  }

  /** `process_outfile`, over the passes that polling leads to, for any bound of 64
      bits: under a safe one, the file is the whole output, cut off at the bound. */
  method ProcessOutfile(drains: seq<Drain>, markStderr: bool, maxOutLen: nat, m: Marks) returns (outfile: Bytes)
    requires forall k | 0 <= k < |drains| :: DrainOk(drains[k])
    requires maxOutLen < TWO_64 && Iteration(false, m) < TWO_64 && m.tail != []
    ensures Safe(maxOutLen, m) ==> outfile == Capped(Uncapped(drains, markStderr, m), maxOutLen)
    ensures Safe(maxOutLen, m) && maxOutLen > 0 ==> |outfile| <= maxOutLen
  {
    outfile := [];
    var outSiz: nat := 0;
    for k := 0 to |drains|
      invariant Safe(maxOutLen, m) ==> InStep(outfile, outSiz, maxOutLen, Uncapped(drains[..k], markStderr, m))
    {
      assert drains[..k + 1][..k] == drains[..k];
      outfile, outSiz :=
        CopyDrain(drains[k], markStderr, maxOutLen, m, outfile, outSiz, Uncapped(drains[..k], markStderr, m));
    }
    assert drains[..|drains|] == drains;
  }

  /** What the first `j` reads of a pass make of the whole. */
  function Partial(chunks: seq<Bytes>, j: nat, head: Bytes): Bytes
    requires j <= |chunks|
  {
    if j == 0 then [] else head + Concat(chunks[..j])
  }

  lemma PartialNext(before: Bytes, chunks: seq<Bytes>, j: nat, head: Bytes)
    requires j < |chunks|
    ensures before + Partial(chunks, j + 1, head)
         == (if j == 0 then before + head else before + Partial(chunks, j, head)) + chunks[j]
  {
    var front, next := Concat(chunks[..j]), chunks[j];
    assert chunks[..j + 1][..j] == chunks[..j];
    assert Concat(chunks[..j + 1]) == front + next;
    if j == 0 {
      assert chunks[..j] == [];
      assert before + (head + next) == before + head + next;
    } else {
      assert before + (head + (front + next)) == before + (head + front) + next;
    }
  }

  lemma WholeOf(before: Bytes, d: Drain, mark: bool, m: Marks)
    ensures before + Whole(d, mark, m)
         == before + Partial(d.chunks, |d.chunks|, if !d.isOut && mark then m.head else [])
            + if !d.isOut && mark && d.chunks != [] then m.tail else []
  {
    assert d.chunks[..|d.chunks|] == d.chunks;
    assert [] + Concat(d.chunks) == Concat(d.chunks);
    assert before + (m.head + Concat(d.chunks) + m.tail) == before + (m.head + Concat(d.chunks)) + m.tail;
  }

  /** How many bytes the code lets one read and its marks write: the 64-bit budget,
      which is the room left where nothing wraps around. */
  method Available(outSiz: nat, iter: nat, max: nat) returns (maxOutsiz: nat)
    requires iter < TWO_64
    ensures maxOutsiz == Budget(outSiz, iter, max)
    ensures max == 0 ==> maxOutsiz == iter
    ensures max > 0 && outSiz <= max && max + iter < TWO_64 ==> maxOutsiz == CmpAvailable(iter, max - outSiz)
  {
    var sub: nat := 0;
    if max > 0 {
      var r := (outSiz + iter) % TWO_64;
      if r > max {
        sub := r - max;
      }
    }
    maxOutsiz := (iter - sub) % TWO_64;
  }

  /** One read of a pass, whose bytes may follow the head of its marks; `opens` tells
      whether that is due. */
  method CopyRead(x: Bytes, ghost opens: bool, isOut: bool, marks: bool, wrote: bool, max: nat, m: Marks,
                  file: Bytes, size: nat, ghost output: Bytes)
    returns (outfile: Bytes, outSiz: nat, maxOutsiz: nat, wroteStderr: bool)
    requires |x| <= BSIZE && Iteration(false, m) < TWO_64
    requires Safe(max, m) ==> InStep(file, size, max, output)
    requires Safe(max, m) ==> (opens <==> !isOut && marks && !wrote && !(0 < max == size))
    ensures Safe(max, m) ==> (wroteStderr <==> wrote || opens)
    ensures Safe(max, m) ==> InStep(outfile, outSiz, max, (if opens then output + m.head else output) + x)
    ensures Safe(max, m) && !isOut ==> RoomFor(|m.tail|, maxOutsiz, outSiz, max)
  {
    outfile, outSiz, wroteStderr := file, size, wrote;
    ghost var safe := Safe(max, m);
    maxOutsiz := Available(outSiz, Iteration(isOut, m), max);
    ghost var headed := if opens then output + m.head else output;
    if !isOut && !wrote && marks && maxOutsiz > 0 {
      outfile, outSiz, maxOutsiz := Fwrite(outfile, outSiz, m.head, maxOutsiz, max, output, safe);
      wroteStderr := true;
    }
    if maxOutsiz > 0 {
      outfile, outSiz, maxOutsiz := Fwrite(outfile, outSiz, x, maxOutsiz, max, headed, safe);
    } else if safe {
      FullStaysFull(headed, x, max);
    }
  }

  /** What is known between the reads of a pass under a safe bound: marks are opened
      at the first read, unless the file is full. */
  ghost predicate BetweenReads(marked: bool, wrote: bool, first: bool, left: nat, size: nat, max: nat, m: Marks) {
    && (wrote ==> marked && !first && RoomFor(|m.tail|, left, size, max))
    && (marked && !first && !wrote ==> 0 < max == size)
  }

  /** The body of the loop over descriptors. */
  method CopyDrain(d: Drain, markStderr: bool, maxOutLen: nat, m: Marks, file: Bytes, size: nat, ghost before: Bytes)
    returns (outfile: Bytes, outSiz: nat)
    requires DrainOk(d) && Iteration(false, m) < TWO_64 && m.tail != []
    requires Safe(maxOutLen, m) ==> InStep(file, size, maxOutLen, before)
    ensures Safe(maxOutLen, m) ==> InStep(outfile, outSiz, maxOutLen, before + Whole(d, markStderr, m))
  {
    outfile, outSiz := file, size;
    var wroteStderr := false;
    var maxOutsiz: nat := 0;
    ghost var safe, marked := Safe(maxOutLen, m), !d.isOut && markStderr;
    ghost var head := if marked then m.head else [];
    ghost var output := before;
    for j := 0 to |d.chunks|
      invariant output == before + Partial(d.chunks, j, head)
      invariant safe ==> InStep(outfile, outSiz, maxOutLen, output)
      invariant safe ==> BetweenReads(marked, wroteStderr, j == 0, maxOutsiz, outSiz, maxOutLen, m)
    {
      ghost var opens := marked && !wroteStderr && !(0 < maxOutLen == outSiz);
      ghost var headed := if j == 0 then output + head else output;
      if safe && marked && !wroteStderr && !opens {
        FullStaysFull(output, head, maxOutLen);
        FullStaysFull(output, d.chunks[j], maxOutLen);
        FullStaysFull(headed, d.chunks[j], maxOutLen);
      }
      outfile, outSiz, maxOutsiz, wroteStderr :=
        CopyRead(d.chunks[j], opens, d.isOut, markStderr, wroteStderr,
                 maxOutLen, m, outfile, outSiz, output);
      PartialNext(before, d.chunks, j, head);
      output := headed + d.chunks[j];
    }
    WholeOf(before, d, markStderr, m);
    if d.isOut || !wroteStderr || !markStderr || maxOutsiz == 0 {
      if safe && marked && d.chunks != [] {
        FullStaysFull(output, m.tail, maxOutLen);
      }
    } else {
      outfile, outSiz, maxOutsiz := Fwrite(outfile, outSiz, m.tail, maxOutsiz, maxOutLen, output, safe);
    }
  }
}
