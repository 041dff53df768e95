/**
 Reading a whole file through reads that may return fewer bytes than asked for. The
 kernel is a function that answers the k-th read, at a position and with a capacity, by
 a count of bytes or a negative error code; nothing else is known about it.
 */
module ReadFile {
  import opened Wrappers

  type Kernel = (nat, nat, nat) -> int

  /** What a read of a file comes to; it is still running when the rounds that one waits are over. */
  datatype Result = Contents(data: Bytes) | Failure(code: int) | Running

  const BLOCK: nat := 32 * 1024

  /** The length of a buffer is an unsigned int: uv_buf_init drops the upper bits. */
  function Capacity(length: nat): nat {
    length % 0x1_0000_0000
  }

  function Available(file: Bytes, pos: nat, cap: nat): nat {
    if pos >= |file| then 0 else if cap < |file| - pos then cap else |file| - pos
  }

  /** Reads fail, or make progress unless there is nothing to read or no room. */
  ghost predicate Answers(kernel: Kernel, file: Bytes) {
    forall k: nat, pos: nat, cap: nat :: Answer(kernel, file, k, pos, cap)
  }

  ghost predicate Answer(kernel: Kernel, file: Bytes, k: nat, pos: nat, cap: nat) {
    var n := kernel(k, pos, cap);
    n <= Available(file, pos, cap) && (n == 0 ==> Available(file, pos, cap) == 0)
  }

  ghost predicate Fails(kernel: Kernel, code: int) {
    code < 0 && exists k: nat, pos: nat, cap: nat :: kernel(k, pos, cap) == code
  }

  ghost predicate NeverFails(kernel: Kernel) {
    forall k: nat, pos: nat, cap: nat :: kernel(k, pos, cap) >= 0
  }

  /** The buffer after n bytes of the file have been read into it at pos. */
  function Filled(buf: Bytes, file: Bytes, pos: nat, n: nat): Bytes
    requires pos + n <= |buf| && pos + n <= |file|
  {
    buf[..pos] + file[pos..pos + n] + buf[pos + n..]
  }

  function Zeros(n: nat): (z: Bytes)
    ensures |z| == n
  {
    seq(n, _ => 0)
  }

  /** The loop ends if the size reported for the file is not too large; 0 stands for an unknown size. */
  predicate Ends(file: Bytes, size: nat) {
    size <= |file| && size < 0x1_0000_0000
  }

  /** The position after k rounds, while no read fails. */
  function After(kernel: Kernel, len: nat, k: nat): Option<nat> {
    if k == 0 then Some(0)
    else
      match After(kernel, len, k - 1)
      case None => None
      case Some(pos) =>
        if pos >= len then Some(pos)
        else
          var n := kernel(k - 1, pos, Capacity(len - pos));
          if n < 0 then None else Some(pos + n)
  }

  ghost predicate Finished(kernel: Kernel, len: nat, k: nat) {
    After(kernel, len, k).Some? && After(kernel, len, k).value >= len
  }

  /** The read of round k is the first that fails, with this code. */
  ghost predicate FailsAt(kernel: Kernel, len: nat, k: nat, code: int) {
    match After(kernel, len, k)
    case None => false
    case Some(pos) => pos < len && code < 0 && kernel(k, pos, Capacity(len - pos)) == code
  }

  lemma {:induction false} AfterStays(kernel: Kernel, len: nat, k: nat, k': nat)
    requires k <= k' && (After(kernel, len, k) == None || Finished(kernel, len, k))
    ensures After(kernel, len, k') == After(kernel, len, k)
    decreases k'
  {
    if k < k' {
      AfterStays(kernel, len, k, k' - 1);
    }
  }

  /** readFileSync, as far as it gets in the given number of rounds. */
  method ReadFileSync(kernel: Kernel, file: Bytes, isFile: bool, size: nat, rounds: nat) returns (r: Result)
    requires Answers(kernel, file)
    ensures r.Failure? ==> Fails(kernel, r.code)
    ensures r.Contents? && isFile && size != 0 ==> Ends(file, size) && r.data == file[..size]
    ensures r.Contents? && !(isFile && size != 0) ==> r.data == file
    ensures NeverFails(kernel) && (isFile ==> Ends(file, size)) && size <= rounds ==> r.Contents?
    ensures NeverFails(kernel) && isFile && !Ends(file, size) ==> r.Running?
  {
    var len := if isFile then size else 0;
    if len != 0 {
      r := ReadExactly(kernel, file, len, rounds);
    } else {
      ghost var earlier;
      r, earlier := ReadBlocks(kernel, file);
    }
  }

  lemma FilledPrefix(buf: Bytes, file: Bytes, pos: nat, n: nat)
    requires pos + n <= |buf| && pos + n <= |file| && buf[..pos] == file[..pos]
    ensures |Filled(buf, file, pos, n)| == |buf| && Filled(buf, file, pos, n)[..pos + n] == file[..pos + n]
  {
    assert file[..pos] + file[pos..pos + n] == file[..pos + n];
  }

  /** The loop for a known size; a size that does not fit a buffer is never reached. */
  method ReadExactly(kernel: Kernel, file: Bytes, len: nat, rounds: nat) returns (r: Result)
    requires Answers(kernel, file) && 0 < len
    ensures r.Running? <==> After(kernel, len, rounds).Some? && After(kernel, len, rounds).value < len
    ensures r.Failure? <==> After(kernel, len, rounds) == None
    ensures r.Contents? <==> Finished(kernel, len, rounds)
    ensures r.Failure? ==> exists k: nat :: k < rounds && FailsAt(kernel, len, k, r.code)
    ensures r.Failure? ==> Fails(kernel, r.code)
    ensures r.Contents? ==> Ends(file, len) && r.data == file[..len]
    ensures NeverFails(kernel) && Ends(file, len) && len <= rounds ==> r.Contents?
    ensures NeverFails(kernel) && !Ends(file, len) ==> r.Running?
  {
    var bufInst := Zeros(len);
    var pos := 0;
    RunsOn(kernel, file, len, rounds);
    hide Filled, Finished, After, Answers, NeverFails, Capacity;
    Begun(kernel, file, len, bufInst);
    for calls := 0 to rounds
      invariant pos < len && InLoop(kernel, file, len, calls, pos, bufInst)
    {
      Round(kernel, file, len, calls, pos, bufInst);
      var bytesread := kernel(calls, pos, Capacity(len - pos));
      if bytesread < 0 {
        assert FailsAt(kernel, len, calls, bytesread);
        AfterStays(kernel, len, calls + 1, rounds);
        NotFinished(kernel, len, rounds);
        return Failure(bytesread);
      }
      bufInst := Filled(bufInst, file, pos, bytesread);
      pos := pos + bytesread;
      if pos >= len {
        IsFinished(kernel, len, calls + 1);
        AfterStays(kernel, len, calls + 1, rounds);
        IsFinished(kernel, len, rounds);
        return Contents(bufInst);
      }
    }
    r := Running;
    NotFinished(kernel, len, rounds);
  }

  /** What has been read after k rounds is in the buffer, and short of a size that does not fit. */
  ghost predicate InLoop(kernel: Kernel, file: Bytes, len: nat, k: nat, pos: nat, buf: Bytes) {
    && After(kernel, len, k) == Some(pos)
    && pos <= len == |buf| && pos <= |file| && buf[..pos] == file[..pos]
    && (0x1_0000_0000 <= len ==> pos <= Capacity(len) < len)
  }

  lemma Begun(kernel: Kernel, file: Bytes, len: nat, buf: Bytes)
    requires |buf| == len
    ensures InLoop(kernel, file, len, 0, 0, buf)
  {
  }

  lemma Round(kernel: Kernel, file: Bytes, len: nat, k: nat, pos: nat, buf: Bytes)
    requires Answers(kernel, file) && InLoop(kernel, file, len, k, pos, buf) && pos < len
    ensures var n := kernel(k, pos, Capacity(len - pos));
      if n < 0 then After(kernel, len, k + 1) == None
      else
        && pos + n <= |buf| && pos + n <= |file|
        && InLoop(kernel, file, len, k + 1, pos + n, Filled(buf, file, pos, n))
  {
    var n := kernel(k, pos, Capacity(len - pos));
    assert Answer(kernel, file, k, pos, Capacity(len - pos));
    hide Filled, Capacity;
    if n >= 0 {
      WithinFile(file, len, pos, n);
      FilledPrefix(buf, file, pos, n);
    }
  }

  lemma IsFinished(kernel: Kernel, len: nat, k: nat)
    requires After(kernel, len, k).Some? && After(kernel, len, k).value >= len
    ensures Finished(kernel, len, k)
  {
  }

  lemma NotFinished(kernel: Kernel, len: nat, k: nat)
    requires After(kernel, len, k) == None || After(kernel, len, k).value < len
    ensures !Finished(kernel, len, k)
  {
  }

  /** A read stays within the file and the buffer, and for a size that does not fit, short of the size. */
  lemma WithinFile(file: Bytes, len: nat, pos: nat, n: nat)
    requires pos < len && pos <= |file| && n <= Available(file, pos, Capacity(len - pos))
    requires 0x1_0000_0000 <= len ==> pos <= Capacity(len)
    ensures pos + n <= len && pos + n <= |file|
    ensures 0x1_0000_0000 <= len ==> pos + n <= Capacity(len) < len
  {
    if 0x1_0000_0000 <= len {
      CapacityLeft(len, pos);
    }
  }

  /** Where the loop is after the rounds, if no read fails. */
  lemma RunsOn(kernel: Kernel, file: Bytes, len: nat, rounds: nat)
    requires Answers(kernel, file)
    ensures NeverFails(kernel) && Ends(file, len) && len <= rounds ==> Finished(kernel, len, rounds)
    ensures NeverFails(kernel) && !Ends(file, len) ==>
      After(kernel, len, rounds).Some? && After(kernel, len, rounds).value < len
  {
    hide After;
    if NeverFails(kernel) {
      if Ends(file, len) {
        Progress(kernel, file, len, rounds);
      } else {
        NoProgress(kernel, file, len, rounds);
      }
    }
  }

  /** The position after k reads of a block, while every read returns something. */
  function AfterBlocks(kernel: Kernel, k: nat): Option<nat> {
    if k == 0 then Some(0)
    else
      match AfterBlocks(kernel, k - 1)
      case None => None
      case Some(pos) => if kernel(k - 1, pos, BLOCK) <= 0 then None else Some(pos + kernel(k - 1, pos, BLOCK))
  }

  /**
   The size is not trusted: whole blocks are read until a read returns nothing. The first
   read that fails ends it with its error; `earlier` is the number of reads before the last.
   */
  method ReadBlocks(kernel: Kernel, file: Bytes) returns (r: Result, ghost earlier: nat)
    requires Answers(kernel, file)
    ensures AfterBlocks(kernel, earlier).Some?
    ensures var n := kernel(earlier, AfterBlocks(kernel, earlier).value, 32768);
      n <= 0 && r == if n < 0 then Failure(n) else Contents(file)
    ensures r.Failure? ==> Fails(kernel, r.code)
    ensures NeverFails(kernel) ==> r.Contents?
    ensures r.Contents? ==> r.data == file
  {
    var bufInst: Bytes := [];
    var len, pos, calls := 0, 0, 0;
    while true
      invariant pos == len == |bufInst| <= |file| && bufInst == file[..pos]
      invariant AfterBlocks(kernel, calls) == Some(pos)
      decreases |file| - pos
    {
      len := len + BLOCK;
      bufInst := bufInst + Zeros(BLOCK);
      var bytesread := kernel(calls, pos, Capacity(len - pos));
      assert Answer(kernel, file, calls, pos, Capacity(len - pos));
      if bytesread < 0 {
        return Failure(bytesread), calls;
      }
      bufInst := Filled(bufInst, file, pos, bytesread);
      if bytesread < BLOCK {
        len := len - (BLOCK - bytesread);
        bufInst := bufInst[..len];
        if bytesread == 0 {
          break;
        }
      }
      pos := pos + bytesread;
      calls := calls + 1;
    }
    assert file[..pos] == file;
    r, earlier := Contents(bufInst), calls;
  }

  // ---------- when the loop for a known size ends ----------

  /** Every round reads at least one byte. */
  lemma {:induction false} Progress(kernel: Kernel, file: Bytes, len: nat, k: nat)
    requires Answers(kernel, file) && NeverFails(kernel) && Ends(file, len)
    ensures After(kernel, len, k).Some? && (k <= After(kernel, len, k).value <= len ||
      After(kernel, len, k).value == len)
  {
    if k > 0 {
      Progress(kernel, file, len, k - 1);
      var pos := After(kernel, len, k - 1).value;
      hide Answers, NeverFails, Ends, Capacity;
      if pos < len {
        ReadsSome(kernel, file, len, k - 1, pos);
      }
    }
  }

  lemma ReadsSome(kernel: Kernel, file: Bytes, len: nat, k: nat, pos: nat)
    requires Answers(kernel, file) && NeverFails(kernel) && Ends(file, len) && pos < len
    ensures 0 < kernel(k, pos, Capacity(len - pos)) <= len - pos
  {
    assert Answer(kernel, file, k, pos, Capacity(len - pos));
  }

  /** How far the loop gets if it does not end. */
  function Stuck(file: Bytes, len: nat): nat {
    if len >= 0x1_0000_0000 then Capacity(len) else |file|
  }

  lemma CapacityLeft(len: nat, pos: nat)
    requires pos <= Capacity(len)
    ensures Capacity(len - pos) == Capacity(len) - pos
  {
    var q := len / 0x1_0000_0000;
    assert len - pos == q * 0x1_0000_0000 + (Capacity(len) - pos);
  }

  lemma {:induction false} NoProgress(kernel: Kernel, file: Bytes, len: nat, k: nat)
    requires Answers(kernel, file) && NeverFails(kernel) && !Ends(file, len)
    ensures After(kernel, len, k).Some? && After(kernel, len, k).value <= Stuck(file, len) < len
  {
    if k > 0 {
      NoProgress(kernel, file, len, k - 1);
      var pos := After(kernel, len, k - 1).value;
      assert Answer(kernel, file, k - 1, pos, Capacity(len - pos));
      StuckStays(file, len, pos);
      hide Capacity, Stuck, Available;
    }
  }

  lemma StuckStays(file: Bytes, len: nat, pos: nat)
    requires !Ends(file, len) && pos <= Stuck(file, len)
    ensures pos < len && pos + Available(file, pos, Capacity(len - pos)) <= Stuck(file, len) < len
  {
    if len >= 0x1_0000_0000 {
      CapacityLeft(len, pos);
    }
  }

  /**
   Without errors the loop for a known size ends exactly when the file is at least as long
   as reported and its size fits the length of a buffer.
   */
  lemma EndsExactly(kernel: Kernel, file: Bytes, len: nat)
    requires Answers(kernel, file) && NeverFails(kernel)
    ensures (exists k :: Finished(kernel, len, k)) <==> Ends(file, len)
  {
    if Ends(file, len) {
      Progress(kernel, file, len, len);
      assert Finished(kernel, len, len);
    } else {
      forall k
        ensures !Finished(kernel, len, k)
      {
        NoProgress(kernel, file, len, k);
      }
    }
  }
}
