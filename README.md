# DAS domain table and control-file writes, modelled in Dafny

DAS is a Linux kernel module meant to group tasks into scheduling
"domains". Its working logic lives in das.c:

- **The domain table `ds`.** It has one slot per domain id. A slot is empty
  (NULL) or holds a record. A record has a member buffer and a counter
  `size` of the entries in use.
- **Five table operations.** `has_domain`, `add_domain`, `remove_domain`,
  `add_member` and the stub `remove_member`.
- **`das_write`.** This is the write handler of the control file
  `/proc/das/api`. A write such as `R 1 100 200` registers domain 1 and adds
  members 100 and 200 to it. A write such as `D 1` deletes domain 1.

The model has four modules:

- `Das` (das.dfy) defines the constants of das.h and the record `Domain`, a
  value type. The class `DomainTable` holds the table as an array of optional
  records. It has one method per table operation. Each method updates the
  array in place and states its whole new state. `AddMembers` is the member
  loop of an `R` request. `Dispatch` is the decision part of `das_write`
  working on an already-read request. `Write` is the whole handler.
- `Command` (command.dfy) reads a write buffer with forward progress. The
  action is the first byte and the domain id is the first integer after it.
  Member ids follow one by one, up to the end of the input or the first token
  that is not an integer. It also has the inverse printer `Encode` and the
  round-trip lemmas. das.c tries to do this reading with `sscanf`, and fails
  (see Findings).
- `AsWritten` (as_written.dfy) models the parsing and the id test of
  das.c:76-88 exactly as the code reads. Each lemma there names an input
  that shows the fault.
- `Scenario` (scenario.dfy) is a client. Its methods `Register`, `Augment`
  and `DeleteThenOutOfRange` pass the session `R 1 100 200`, `R 1 300`,
  `D 1`, `R 99999` to `Write` and rely only on the contracts. Their
  assertions, proved by the verifier, state that domain 1 ends up with
  members 100, 200 and 300, that `D 1` removes it, and that id 99999 is
  rejected without changing the table.

Inputs that the module gets from the kernel become parameters:

- the file offset;
- the bytes written;
- the value `copy_from_user` returns.

The table size `MAX_DOMAIN_COUNT` becomes the length of `ds`. The per-record
capacity `MAX_DOMAIN_CAP` becomes `capacity`. Neither name, nor `ds`
itself, is defined in das.c or das.h. The scenario uses `DOMAIN_MAX_CNT`
(das.h:5, `2 << 6` = 128) as the table size.

das.c reports no duplicate-domain and no missing-domain errors. The model
follows das.c:

- `add_domain` overwrites an occupied slot with a fresh empty record.
- `remove_domain` on an empty slot is harmless.
- An `R` request for a domain that already exists keeps its members and
  appends the new ones.

## Model

| member | source | states |
|---|---|---|
| `Das.Domain.Fresh` | das.c:132-133 | the record `add_domain` allocates: a zeroed buffer of `capacity` slots, size 0, no members |
| `Das.Domain.Push` | das.c:148-150 | one `add_member` on a record: size grows by one, the member list gains `mid` at its end, buffer length and the unused tail are unchanged |
| `Das.Domain.PushAll` | das.c:86-88 | adding the ids of `mids` one after another: size grows by their number, and the member list becomes the old list followed by `mids` in order |
| `Das.Domain.PushAllConcat` | das.c:81-90 | registering members `a` and then `b` gives the same record as registering `a + b` at once |
| `Das.DomainTable.HasDomain` | das.c:125-128 | true exactly when slot `did` is occupied; changes nothing |
| `Das.DomainTable.AddDomain` | das.c:130-137 | returns 0; slot `did` now holds a fresh empty record even if it was occupied; every other slot is unchanged |
| `Das.DomainTable.RemoveDomain` | das.c:139-144 | returns 0; slot `did` is empty, even if it was already empty; every other slot is unchanged |
| `Das.DomainTable.AddMember` | das.c:146-151 | on a present domain with room: `mid` is written at position old size, the size and the returned value are old size + 1, earlier members and all other slots are unchanged |
| `Das.DomainTable.RemoveMember` | das.c:153-156 | returns 0 and changes nothing |
| `Das.DomainTable.AddMembers` | das.c:86-88 | the member loop as intended: on a present domain with room, one `add_member` per given id in order, so the slot holds the old record with the ids appended; every other slot is unchanged |
| `Das.DomainTable.Dispatch` | das.c:78-98 | accepts exactly an in-range id with action `R` or `D`; a rejection leaves the table unchanged. `R` leaves the domain present with its earlier members (none if it was absent) followed by the given ids in order, other slots unchanged. `D` leaves the slot empty, other slots unchanged |
| `Das.DomainTable.Write` | das.c:68-107 | positive offset: returns 0, no change. Failed copy: returns the uncopied count, no change. No id, bad id or bad action: returns -EINVAL with offset and table unchanged. Accepted `R`/`D`: returns the byte count, advances the offset by it, and has `Dispatch`'s effect |
| `Command.ScanInt` | das.c:77 | one `%d` conversion: what it leaves unread is a tail of its input, strictly shorter; it succeeds exactly when, after the leading white space, the text starts with a digit or with `-` followed by a digit |
| `Command.ScanPaddedShowInt` | das.c:77 | a printed integer after any run of white space (spaces, tabs, line breaks, or none) scans back to that integer, leaving exactly the text after its digits |
| `Command.Decode` | das.c:76-77 | the reading `Write` uses in place of das.c:76-77 and 86: no request exactly when the buffer is empty or no integer follows the action byte; otherwise the action is the first byte and the domain id is the first integer after it (the member ids are given by `DecodeEncode` and `DecodeEncodeThen`) |
| `Command.DecodeEncode` | das.c:76-77 | decoding the text of a request gives back its action, domain id and member ids |
| `Command.DecodeEncodeThen` | das.c:86-88 | text after an encoded request that does not extend its last number only appends the integers it scans to the member list |
| `Command.DecodeStopsAtBadToken` | das.c:86-88 | once a token fails to scan as an integer, it and everything after it are ignored |
| `AsWritten.LetterDefeatsIdScan` | das.c:76-77 | the `%d` scan of the domain id, which starts at the action letter, fails for every buffer that begins with a letter |
| `AsWritten.IdScanCounterexample` | das.c:76-77 | on `D 5` the as-written scan finds no id, while the corrected reading finds 5 |
| `AsWritten.IdScan` | das.c:77 | the id scan as written, starting at the first byte of `kbuf`: a buffer whose first byte is not white space, a digit or `-` (every action letter) yields no id |
| `AsWritten.MemberLoopRuns` | das.c:86-88 | the guard rescans the same unchanged buffer, so within any number of guard tests the body runs either never or at every test, and it runs at all exactly when tests are made and the scan fails |
| `AsWritten.RegisterLoopNeverExits` | das.c:86-88 | for every `R` buffer the loop body has run once per guard test, however many tests are made: the loop never exits |
| `AsWritten.IdRejected` | das.c:78-79 | the id test as written: every id it rejects lies outside the table, and on non-negative ids it rejects exactly those at or above the table size |
| `AsWritten.NegativeIdAccepted` | das.c:78-79 | every negative id passes the only id test, yet it indexes no slot of the table |

## Findings

| source | as written | input that shows it | evidently intended | confidence | as-written member | corrected member |
|---|---|---|---|---|---|---|
| das.c:76-77 | the domain id is read with `sscanf(kbuf, "%d", &did)` from the start of the buffer, where the action letter is, so the scan fails and `did` stays uninitialised | `D 5` | read the id from the first integer after the action letter, and reject with -EINVAL a write that has no action byte or no integer after it | not executed | `AsWritten.IdScanCounterexample` | `Command.DecodeEncode` |
| das.c:86-88 | `while(!sscanf(kbuf, "%d", &mid))` rescans the same unchanged buffer each time and runs its body only while the scan fails: it never exits on an `R` request (adding an uninitialised `mid` past the record's end), and it would add nothing if the scan succeeded | `R 1 100 200` | add each member id of the request in turn, stopping at the end of the input or at the first token that is not an integer | not executed | `AsWritten.RegisterLoopNeverExits` | `Das.DomainTable.AddMembers` |
| das.c:78-79 | the only id test is `did >= MAX_DOMAIN_COUNT`, so a negative id goes on to index `ds` out of bounds | a request with domain id -1, `D -1` under the corrected reading | reject ids below 0 as well | not executed | `AsWritten.NegativeIdAccepted` | `Das.DomainTable.Dispatch` |

## Left out

- Module init and exit and the proc-file set-up and removal (`das_init`, `das_exit`, `_init_proc_api`, `_remove_proc_api`, das.c:16-57) are kernel registration glue.
- `das_read` (das.c:58-67) is an I/O stub that copies zero bytes.
- `copy_from_user` is user-to-kernel memory transfer. Its result is the parameter `uncopied`, and the bytes it copies are the parameter `buf`.
- `printk` logging is left out.
- `dispatch_thread` and `timer_handler` (das.c:109-123) are kthread sleep and wake-up. They are pure concurrency and hold no table state.
- `find_task_by_pid` (das.h:37-44) wraps kernel RCU and pid lookup, which cannot be seen here.
- The `struct domain` and `struct member` of das.h:15-26, with their spinlock and list links, are not what das.c uses. The record is modelled as das.c uses it: an integer member buffer and a size.
- The `kzalloc` failure path of `add_domain` (das.c:132-135) is left out. Allocation always succeeds. The code dereferences the result before its NULL check, so the `-ENOMEM` return cannot help anyway.
- Records are values held in the slots, not heap blocks. So the model does not show that `add_domain` on an occupied slot leaks the old record, and it does not show aliasing. Only `ds` ever points at a record.
- Domain ids and member ids are unbounded integers. The 32-bit `int` they are scanned into, and overflow in the kernel's `%d` conversion, are not modelled. A record's `size` cannot overflow, because it stays at or below the capacity.
- The model reads exactly the bytes written. The code hands `kbuf` to `sscanf` without NUL-terminating it, so the real scan can run on into stale stack bytes.
- `MAX_DOMAIN_CAP` is the byte size that `kzalloc` is asked for. The model reads it as the member capacity of a record.
- Das.DomainTable.Write: requires a write of at most PROC_BUF_SIZE bytes when the offset is not positive, because only then does `copy_from_user` run (das.c:71 returns 0 before it). `kbuf` holds 128 bytes, and copying a longer write overruns it. Under this bound, the truncation of `count` into the `int` `copied` cannot happen. A write of any length at a positive offset is handled.
- Das.DomainTable.Write: requires an `R` request's members to fit in the record (predicate `Fits`), but only when the request is dispatched: offset not positive, the copy complete, and a request decoded. `add_member` does not check the capacity, so a larger request writes past the record. A positive offset or a failed copy returns before any member is added, whatever the buffer holds.
- Das.DomainTable.Dispatch: requires the same `Fits` bound, for the same reason.
- Das.DomainTable.AddMembers: requires the given ids to fit in the record, for the same reason.
- Das.DomainTable.Write: a write that is empty or has no integer after its action byte (an empty write, `R`, `D x`) is rejected with -EINVAL by the model's own choice. das.c:76-80 never checks what `sscanf` returns and goes on with an uninitialised `action` or `did`, whose behaviour cannot be stated.
- Command.ScanInt: white space is the ASCII set (space and `\t` to `\r`). The kernel's ctype table also counts byte 0xA0 as white space; non-ASCII bytes are not modelled.
- Das.DomainTable.AddMember: requires the domain to be present and to have room. `add_member` dereferences the slot and writes at `size` without checking (das.c:148).

