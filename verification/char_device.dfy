/** The character device: one fixed 1024-byte buffer holding ciphertext,
    the open, write and read counters and the shared session timer, with the
    four file-operation handlers `read`, `write`, `open` and `release` and
    the statistics report. */
module CharDevice {
  import opened XorCipher
  import opened SessionClock

  /** `buffer_size`: the capacity of the device buffer. */
  const BufferSize: nat := 1024

  /** The errors the handlers return, as negative errno values. */
  datatype Errno = ENOSPC | ENOMEM | EFAULT {
    /** The value the handler returns: minus the Linux errno number. */
    function Code(): (c: int)
      ensures c < 0
      ensures c == -28 <==> this == ENOSPC
    {
      match this
      case ENOSPC => -28
      case ENOMEM => -12
      case EFAULT => -14
    }
  }

  datatype Result<T> = Ok(value: T) | Err(error: Errno)

  /** An offset the handlers serve: one below `buffer_size`. A negative
      offset is out of range as well (see `UnsignedOffsetCheck`). */
  predicate InRange(off: int)
  {
    0 <= off < BufferSize
  }

  /** 2^64: the modulus of a 64-bit `size_t`. */
  const SizeTModulus: int := 0x1_0000_0000_0000_0000

  /** The range test `*off >= buffer_size` compares a signed 64-bit `loff_t`
      with a `size_t`. Where `size_t` is 64 bits wide (LP64), the offset is
      converted to `size_t` (taken modulo 2^64) before the comparison, so a
      negative offset fails the test like one at or past the end. */
  lemma UnsignedOffsetCheck(off: int)
    requires -0x8000_0000_0000_0000 <= off < 0x8000_0000_0000_0000
    ensures (off % SizeTModulus >= BufferSize) <==> !InRange(off)
  {
    if off < 0 {
      assert off % SizeTModulus == off + SizeTModulus;
    }
  }

  /** The length a handler transfers at an offset in range: the requested
      length cut down to the room left before the end of the buffer. */
  function Clamp(len: nat, off: int): (n: nat)
    requires InRange(off)
    ensures n <= len && off + n <= BufferSize
    ensures n == len || off + n == BufferSize
    ensures n == 0 <==> len == 0
  {
    if len > BufferSize - off then BufferSize - off else len
  }

  /** What a successful read at `off` hands to the caller: the clamped slice
      of the stored ciphertext, decrypted. */
  function Fetched(buf: seq<bv8>, off: int, len: nat): (r: seq<bv8>)
    requires |buf| == BufferSize && InRange(off)
    ensures |r| == Clamp(len, off)
    ensures forall i :: 0 <= i < |r| ==> r[i] == Crypt(buf[off + i])
  {
    Transform(buf[off..off + Clamp(len, off)])
  }

  /** The buffer after a successful write of `data` at `off`: the first
      Clamp(|data|, off) bytes of `data`, encrypted, replace the bytes from
      `off` on, and every other byte keeps its value. */
  function Stored(buf: seq<bv8>, off: int, data: seq<bv8>): (r: seq<bv8>)
    requires |buf| == BufferSize && InRange(off)
    ensures |r| == BufferSize
    ensures forall i :: 0 <= i < BufferSize ==>
              r[i] == if off <= i < off + Clamp(|data|, off) then Crypt(data[i - off]) else buf[i]
  {
    var n := Clamp(|data|, off);
    buf[..off] + Transform(data[..n]) + buf[off + n..]
  }

  /** Writing a payload that fits and reading back as many bytes at the same
      offset returns the payload: the read decrypts what the write encrypted. */
  lemma RoundTrip(buf: seq<bv8>, off: int, p: seq<bv8>)
    requires |buf| == BufferSize && InRange(off) && off + |p| <= BufferSize
    ensures Fetched(Stored(buf, off, p), off, |p|) == p
  {
    var after := Stored(buf, off, p);
    var got := Fetched(after, off, |p|);
    assert |got| == |p|;
    forall i | 0 <= i < |p|
      ensures got[i] == p[i]
    {
      assert after[off + i] == Crypt(p[i]);
    }
  }

  /** A write that was cut short stores only what fits: reading the rest of
      the buffer from the same offset returns the first part of the payload. */
  lemma TruncatedRoundTrip(buf: seq<bv8>, off: int, p: seq<bv8>)
    requires |buf| == BufferSize && InRange(off) && off + |p| > BufferSize
    ensures Fetched(Stored(buf, off, p), off, |p|) == p[..BufferSize - off]
  {
    var after := Stored(buf, off, p);
    var got := Fetched(after, off, |p|);
    assert |got| == BufferSize - off;
    forall i | 0 <= i < BufferSize - off
      ensures got[i] == p[i]
    {
      assert after[off + i] == Crypt(p[i]);
    }
  }

  /** The four values the statistics file reports. */
  datatype Stats = Stats(openCount: nat, writeCount: nat, readCount: nat, totalTime: int)

  /** The driver's global state. */
  class Device {
    /** `buffer`: ciphertext, `buffer_size` bytes. */
    const buffer: array<bv8>
    var openCount: nat
    var writeCount: nat
    var readCount: nat
    /** `open_time`, in ticks. */
    var openTime: int
    /** `total_time`, in ticks. */
    var totalTime: int

    ghost predicate Valid()
      reads this
    {
      buffer.Length == BufferSize
    }

    /** The session timer as a value. */
    function Timer(): Clock
      reads this
    {
      Clock(openTime, totalTime)
    }

    /** The state after module initialisation: the statics start at zero and
        the freshly allocated buffer holds whatever the allocator left in it,
        here `initial`. */
    constructor (initial: seq<bv8>)
      requires |initial| == BufferSize
      ensures Valid() && fresh(buffer)
      ensures buffer[..] == initial
      ensures openCount == 0 && writeCount == 0 && readCount == 0
      ensures Timer() == Clock(0, 0)
    {
      buffer := new bv8[BufferSize](i requires 0 <= i < BufferSize => initial[i]);
      openCount, writeCount, readCount := 0, 0, 0;
      openTime, totalTime := 0, 0;
    }

    /** `chrdev_read`: `off` is the file offset on entry and `newOff` on
        return; `allocOk` says whether the temporary buffer could be
        allocated and `copyOk` whether the copy to the caller succeeded.
        Neither can fail for 0 bytes: `kmalloc(0)` returns a non-NULL
        marker and copying 0 bytes reports nothing uncopied. The buffer is
        never changed. */
    method Read(len: nat, off: int, allocOk: bool, copyOk: bool) returns (r: Result<seq<bv8>>, newOff: int)
      requires Valid()
      modifies this`readCount
      ensures buffer[..] == old(buffer[..])
      ensures !InRange(off) ==>
                r == Ok([]) && newOff == off && readCount == old(readCount)
      ensures InRange(off) && Clamp(len, off) > 0 && !allocOk ==>
                r == Err(ENOMEM) && newOff == off && readCount == old(readCount)
      ensures InRange(off) && Clamp(len, off) > 0 && allocOk && !copyOk ==>
                r == Err(EFAULT) && newOff == off && readCount == old(readCount)
      ensures InRange(off) && (Clamp(len, off) == 0 || (allocOk && copyOk)) ==>
                r == Ok(Fetched(buffer[..], off, len)) && newOff == off + Clamp(len, off) &&
                readCount == old(readCount) + 1
    {
      if off < 0 || off >= BufferSize {
        return Ok([]), off;
      }
      var n := len;
      if n > BufferSize - off {
        n := BufferSize - off;
      }
      if !allocOk && n > 0 {
        return Err(ENOMEM), off;
      }
      var tmp := new bv8[n];
      forall i | 0 <= i < n {
        tmp[i] := buffer[off + i];
      }
      var i := 0;
      while i < n
        modifies tmp
        invariant 0 <= i <= n
        invariant forall k :: 0 <= k < i ==> tmp[k] == Crypt(buffer[off + k])
        invariant forall k :: i <= k < n ==> tmp[k] == buffer[off + k]
      {
        tmp[i] := tmp[i] ^ KEY;
        i := i + 1;
      }
      if !copyOk && n > 0 {
        return Err(EFAULT), off;
      }
      assert tmp[..] == Fetched(buffer[..], off, len);
      newOff := off + n;
      readCount := readCount + 1;
      r := Ok(tmp[..]);
    }

    /** `chrdev_write`: `data` is the caller's bytes (as many as it asked to
        write); `off`, `newOff`, `allocOk` and `copyOk` as for `Read`. A
        failed write changes nothing: the fault is detected before any byte
        reaches the buffer. A write of 0 bytes at an offset in range cannot
        fail, for the same reason as a read of 0 bytes. */
    method Write(data: seq<bv8>, off: int, allocOk: bool, copyOk: bool) returns (r: Result<nat>, newOff: int)
      requires Valid()
      modifies buffer, this`writeCount
      ensures !InRange(off) ==>
                r == Err(ENOSPC) && newOff == off &&
                buffer[..] == old(buffer[..]) && writeCount == old(writeCount)
      ensures InRange(off) && Clamp(|data|, off) > 0 && !allocOk ==>
                r == Err(ENOMEM) && newOff == off &&
                buffer[..] == old(buffer[..]) && writeCount == old(writeCount)
      ensures InRange(off) && Clamp(|data|, off) > 0 && allocOk && !copyOk ==>
                r == Err(EFAULT) && newOff == off &&
                buffer[..] == old(buffer[..]) && writeCount == old(writeCount)
      ensures InRange(off) && (Clamp(|data|, off) == 0 || (allocOk && copyOk)) ==>
                r == Ok(Clamp(|data|, off)) && newOff == off + Clamp(|data|, off) &&
                buffer[..] == Stored(old(buffer[..]), off, data) &&
                writeCount == old(writeCount) + 1
    {
      if off < 0 || off >= BufferSize {
        return Err(ENOSPC), off;
      }
      var n := |data|;
      if n > BufferSize - off {
        n := BufferSize - off;
      }
      if !allocOk && n > 0 {
        return Err(ENOMEM), off;
      }
      var tmp := new bv8[n];
      forall i | 0 <= i < n {
        tmp[i] := data[i];
      }
      if !copyOk && n > 0 {
        return Err(EFAULT), off;
      }
      var i := 0;
      while i < n
        modifies tmp
        invariant 0 <= i <= n
        invariant forall k :: 0 <= k < i ==> tmp[k] == Crypt(data[k])
        invariant forall k :: i <= k < n ==> tmp[k] == data[k]
      {
        tmp[i] := tmp[i] ^ KEY;
        i := i + 1;
      }
      forall k | 0 <= k < n {
        buffer[off + k] := tmp[k];
      }
      assert buffer[..] == Stored(old(buffer[..]), off, data);
      newOff := off + n;
      writeCount := writeCount + 1;
      r := Ok(n);
    }

    /** `chrdev_open`: counts the open and stamps the session timer with the
        current tick `now`. */
    method Open(now: int)
      modifies this`openCount, this`openTime
      ensures openCount == old(openCount) + 1
      ensures Timer() == OpenClock(old(Timer()), now)
    {
      openCount := openCount + 1;
      openTime := now;
    }

    /** `chrdev_release`: folds the time since the stamp into the total. */
    method Release(now: int)
      modifies this`openTime, this`totalTime
      ensures Timer() == ReleaseClock(old(Timer()), now)
      ensures now >= old(openTime) ==> totalTime >= old(totalTime)
    {
      openTime := now - openTime;
      totalTime := totalTime + openTime;
    }

    /** `chrdev_stats_show`: the four reported values, read without changing
        anything (the open time stays in ticks). */
    method StatsShow() returns (s: Stats)
      ensures s.openCount == openCount && s.writeCount == writeCount
      ensures s.readCount == readCount && s.totalTime == totalTime
    {
      s := Stats(openCount, writeCount, readCount, totalTime);
    }
  }

  /** Calls on a fresh device: a write of "HELLOWORLD" at offset 0 and a read
      of 10 bytes there, then a write of 5 bytes 3 bytes before the end. */
  method DeviceScenario(initial: seq<bv8>)
    requires |initial| == BufferSize
  {
    var d := new Device(initial);
    d.Open(100);
    var hello: seq<bv8> := [0x48, 0x45, 0x4C, 0x4C, 0x4F, 0x57, 0x4F, 0x52, 0x4C, 0x44];
    var before := d.buffer[..];
    var w, off := d.Write(hello, 0, true, true);
    assert w == Ok(10) && off == 10;
    var r, off2 := d.Read(10, 0, true, true);
    RoundTrip(before, 0, hello);
    assert r == Ok(hello) && off2 == 10;
    assert d.writeCount == 1 && d.readCount == 1;

    var tail: seq<bv8> := [1, 2, 3, 4, 5];
    var w2, off3 := d.Write(tail, BufferSize - 3, true, true);
    assert w2 == Ok(3) && off3 == BufferSize && d.writeCount == 2;
    var w3, off4 := d.Write(tail, off3, true, true);
    assert w3 == Err(ENOSPC) && off4 == BufferSize && d.writeCount == 2;
    var r2, off5 := d.Read(10, off3, true, true);
    assert r2 == Ok([]) && off5 == BufferSize && d.readCount == 1;

    var r3, off6 := d.Read(0, 0, false, false);
    assert r3 == Ok([]) && off6 == 0 && d.readCount == 2;

    d.Release(150);
    assert d.totalTime == 50;
  }
}
