# XOR character device: a verified model

This project models the core of a Linux character-device driver
(`module_project.c`). The driver keeps one global 1024-byte buffer. Callers
read and write it at explicit file offsets. Every byte crosses the boundary
XORed with the fixed key `0x41`, so the buffer holds ciphertext and callers see
plaintext. The driver counts opens, writes and reads, and it accumulates the
time handles stay open through a single shared timer. A procfs file reports
the four statistics.

The model has three modules:

- `XorCipher` (`xor_cipher.dfy`): the key, the per-byte cipher `Crypt`, the
  whole-string `Transform`, and the proof that the cipher is self-inverse.
- `SessionClock` (`session_clock.dfy`): what open and release do to the pair
  (`open_time`, `total_time`), as functions on a `Clock` value. Lemmas follow
  whole sequences of opens and releases. Back-to-back sessions are summed
  exactly. Overlapping sessions are miscounted by the shared timer.
- `CharDevice` (`char_device.dfy`): the driver's global state as the class
  `Device`, with the buffer as an `array<bv8>` of length 1024. The handlers
  `Read`, `Write`, `Open` and `Release` and the report `StatsShow` are its
  methods. `Read` and `Write` take the file offset and return the new one.
  They copy and XOR through a fresh temporary array in loops, as the driver
  does. Each handler's postcondition ties its result and the new state to the
  specification functions `Clamp`, `Fetched` and `Stored`. Round-trip lemmas
  are proved about those functions. `DeviceScenario` is a client that walks a
  fresh device through a write/read round trip, a truncated write, a write
  past the end and a timed session.

The outside world enters as parameters:

- The current tick (`jiffies`) is `now`.
- Success of the temporary `kmalloc` is `allocOk`.
- Success of `copy_to_user`/`copy_from_user` is `copyOk`.
- The caller's bytes for a write are `data`.
- A read returns the decrypted bytes instead of copying them to user memory.

Behaviour of the driver the model keeps:

- A read or write at an in-range offset counts itself even when the clamped
  length is 0. That happens for a request of length 0. Such a transfer
  cannot fail: `kmalloc(0)` returns a non-NULL marker and a 0-byte user copy
  reports nothing uncopied.
- A read can fail with `-ENOMEM` or `-EFAULT`.
- A failed allocation or user copy leaves the counters, the offset and the
  buffer as they were.
- The core keeps no CLOSED/OPEN state. Read and write are served whether or
  not a handle is open.
- Release stores the elapsed time back into `open_time`. A second release
  without an open therefore measures from that elapsed value.

The file offset is a signed 64-bit `loff_t` compared with the `size_t`
`buffer_size`. The model assumes a 64-bit `size_t` (LP64). There the
comparison is unsigned, so a negative offset is out of range, exactly like
one at or past 1024 (`InRange`, `UnsignedOffsetCheck`). With a 32-bit
`size_t` the comparison would be signed. The kernel's read and write entry
points also reject a negative position before the handler runs, unless the
file is marked for unsigned offsets.

## Model

| member | source | states |
|---|---|---|
| `XorCipher.Crypt` | module_project.c:24 | XOR with the key always changes a byte, and XORing the result with the key again gives the byte back |
| `XorCipher.Transform` | module_project.c:57-58 | the transform keeps the length and puts byte i of the input, XORed with the key, at position i |
| `XorCipher.TransformInvolution` | module_project.c:93-94 | transforming twice gives back every byte string unchanged (encrypt then decrypt is the identity) |
| `CharDevice.Errno.Code` | module_project.c:79-91 | every error code a handler returns is negative, and -28 is the code of ENOSPC and of no other error |
| `CharDevice.UnsignedOffsetCheck` | module_project.c:44 | for every 64-bit signed offset, the test `*off >= buffer_size` done on the offset converted to a 64-bit `size_t` fails exactly for the offsets in range, 0 <= off < 1024; the same test guards the write at line 79 |
| `CharDevice.Clamp` | module_project.c:47-48 | the transferred length never exceeds the request or runs past byte 1024; it equals the request unless it stops exactly at the end; it is 0 only for a request of 0 |
| `CharDevice.Fetched` | module_project.c:55-58 | a read hands back exactly Clamp(len, off) bytes, byte i being stored byte off+i XORed with the key |
| `CharDevice.Stored` | module_project.c:93-96 | after a write, positions [off, off+n) hold the caller's bytes XORed with the key and every other position keeps its old value |
| `CharDevice.RoundTrip` | module_project.c:55-96 | writing payload p at off with off+len(p) <= 1024, then reading len(p) bytes at off, returns p |
| `CharDevice.TruncatedRoundTrip` | module_project.c:82-96 | when the payload runs past the end, reading back at the same offset returns just the part that fitted |
| `CharDevice.Device.constructor` | module_project.c:25-31 | the device starts with all counters and both timer fields at zero and a 1024-byte buffer of arbitrary content |
| `CharDevice.Device.Read` | module_project.c:39-71 | never changes the buffer. Out of range: returns 0 bytes and keeps the offset and read_count. Allocation or copy fault on a transfer of at least 1 byte: -ENOMEM/-EFAULT and nothing changes. Otherwise, including every transfer of 0 bytes: returns Fetched, advances the offset by the clamped length and adds exactly 1 to read_count |
| `CharDevice.Device.Write` | module_project.c:74-102 | out of range: -ENOSPC. Allocation or copy fault on a transfer of at least 1 byte: -ENOMEM/-EFAULT. In all three, buffer, write_count and offset are unchanged. Otherwise, including every transfer of 0 bytes: returns the clamped length n, leaves the buffer equal to Stored, advances the offset by n and adds exactly 1 to write_count |
| `CharDevice.Device.Open` | module_project.c:104-110 | adds exactly 1 to open_count and stamps open_time with now, keeping total_time |
| `CharDevice.Device.Release` | module_project.c:113-119 | adds now - open_time to total_time and leaves that elapsed value in open_time; total_time does not decrease when now >= open_time |
| `CharDevice.Device.StatsShow` | module_project.c:131-139 | reports open_count, write_count, read_count and total_time without changing any of them |
| `SessionClock.OpenClock` | module_project.c:106-107 | an open sets the stamp to now and leaves the accumulated total alone |
| `SessionClock.ReleaseClock` | module_project.c:115-116 | a release adds now - stamp to the total and overwrites the stamp with exactly the amount added |
| `SessionClock.SerialSessionsTotal` | module_project.c:104-119 | for sessions that do not overlap, the total grows by exactly the sum of the session lengths |
| `SessionClock.SerialSessionsMonotone` | module_project.c:115-116 | for such sessions with a forward-running clock the total never decreases, and it strictly grows once any session lasts a tick |
| `SessionClock.OverlappingSessionsMiscount` | module_project.c:107-116 | for any clock and ticks a, b, r1, r2, the calls open a, open b, release r1, release r2 add exactly r2 to the total, while the sessions [a, r1] and [b, r2] last (r1 - a) + (r2 - b); the two agree only when r1 == a + b |

## Left out

- Module initialisation and teardown (`chrdev_init`, `chrdev_exit`) are kernel registration glue. This covers device, class and procfs registration, the failure path that frees the buffer before it is allocated, and the allocation failure of the buffer itself. The model starts from a successfully initialised device.
- The procfs and seq_file plumbing and the text formatting are left out. `StatsShow` reports the four values as numbers.
- `jiffies_to_msecs` depends on the kernel's HZ setting. `StatsShow` reports total_time in ticks, not milliseconds.
- `kmalloc`, `kfree`, `copy_to_user` and `copy_from_user` are foreign kernel calls. Each becomes a success flag. A `copy_to_user` that faults after copying part of the data may leave those bytes in user memory. The model does not represent user memory.
- `jiffies` is the parameter `now`. Its wrap-around is not modelled.
- Integer widths: the counters are C `int` and the timer fields are `long`. The model uses unbounded integers, so overflow is not modelled.
- Concurrency is not modelled. The driver has no locks, and handlers running in parallel could interleave their updates to the buffer and the counters. The model gives the sequential semantics only. The shared-timer effect of overlapping sessions does occur sequentially, and `OverlappingSessionsMiscount` shows it.
