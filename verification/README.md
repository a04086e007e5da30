# ZeroMQ 2.x OCaml binding: marshalling core

`wrapper.c` binds OCaml to the 0MQ 2.x C API. Almost every `wrap_*`
primitive hands its arguments to one `zmq_*` call. Around those calls sits
some self-contained marshalling logic, and that logic is what this project
models and proves things about:

- **Tables.** The tables indexed by the host's variant ordinals:
  - `socket_type` (nine socket types);
  - `send_flag` (NOBLOCK, SNDMORE);
  - `option_name` and `map_option_len` (sixteen socket options).
- **Option codec.** `wrap_getsockopt` and `wrap_setsockopt` carry values
  between host and native form, per kind of option:
  - C `int`, saturated upwards on set;
  - `int64`, passed unchanged;
  - `int64` reinterpreted as `uint64`;
  - IDENTITY as an optional C string;
  - MCAST_LOOP and AFFINITY as a 64-field boolean array packed into a
    `uint64` bitmask.
- **Flag folding.** `wrap_send` ORs its whole flag list into one word;
  `wrap_recv` looks only at the head of its list.
- **Errno translation.** After a failed call, each wrapper picks an
  exception name and a fixed message with a `switch` on `zmq_errno()`. The
  model keeps its quirks as written:
  - the `default` of `wrap_send` raises "EINTR";
  - the EFAULT case of `wrap_getsockopt` raises "ETERM".
- **Message copy.** Send copies the string into a message sized to it.
  Receive copies the message out into a fresh string.

The native library is a set of oracles: function parameters that answer an
rc/errno pair, a pointer or errno, or a filled buffer. For set-then-get round
trips, an idealised option store (`Options.Store`, a map from native option
name to the bytes last set) stands for the socket.

One deliberate departure: the bitmask loops of getsockopt and setsockopt
shift the 32-bit int `1`, which misplaces the fields from 31 up (see
"## Findings"). The option codec uses the corrected 64-bit shift; the loops
as written are modelled separately in `Bitmask`.

The layout follows the program:

| module | file | contents |
|---|---|---|
| `Wrappers` | `wrappers.dfy` | `Option` |
| `CTypes` | `ctypes.dfy` | C integer widths, two's-complement images, little-endian memory images, the `(int)` conversion |
| `Zmq` | `zmq.dfy` | the native constants of `zmq.h` (2.x) and the Linux errno values |
| `Errors` | `errors.dfy` | exceptions and every errno `switch` |
| `Tables` | `tables.dfy` | the four ordinal tables and the option kinds |
| `Flags` | `flags.dfy` | the send and receive flag words |
| `Bitmask` | `bitmask.dfy` | the 64-bit boolean array codec, and the shift as written |
| `Options` | `options.dfy` | getsockopt and setsockopt |
| `Messages` | `messages.dfy` | send and receive with message copy |
| `Lifecycle` | `lifecycle.dfy` | init, socket, bind, connect, close, term |

Platform assumptions, stated once:
- LP64 x86-64 with GCC: `int` is 32 bits, `long` and pointers are 64 bits,
  and memory is little-endian.
- An out-of-range `(int)` conversion keeps the value modulo 2^32.
- OCaml `int` is 63 bits.

Behaviours of `wrapper.c` the model keeps as written:
- MCAST_LOOP is decoded and encoded as a 64-field boolean array, like
  AFFINITY.
- A get of SUBSCRIBE or UNSUBSCRIBE is not rejected beforehand. The native
  call is made with width `(size_t) -1`. The getsockopt switch has no case for
  these two options, so if the call succeeds its `default` raises "ERR".
- The int options saturate only upwards. A host int below `INT_MIN` wraps
  modulo 2^32.
- Setting IDENTITY to `None` passes a NULL pointer with length
  `sizeof(NULL)` (8), not a zero-length write.

## Model

| member | source | states |
|---|---|---|
| Tables.SocketType | wrapper.c:21-31 | the table itself, one native socket type per host variant; its properties are stated in `Tables.SocketTypeBijective` |
| Tables.SocketTypeBijective | wrapper.c:21-31 | `socket_type` maps the nine host socket variants one-to-one onto the nine native socket types; a native code has a host ordinal iff it is one of them |
| Tables.SocketOrdinalOf | wrapper.c:21-31 | the inverse lookup of `socket_type`: any ordinal it returns indexes the given native type |
| Tables.SendFlag | wrapper.c:33-36 | `send_flag` yields ZMQ_NOBLOCK or ZMQ_SNDMORE |
| Tables.OptionName | wrapper.c:340-357 | the table itself, one native option name per host variant; its properties are stated in `Tables.OptionTableConsistent` |
| Tables.OptionLen | wrapper.c:359-376 | the table itself, the getsockopt buffer width per option; its properties are stated in `Tables.OptionLenMatchesKind` |
| Tables.SetBranchOf | wrapper.c:477-536 | the case labels of the setsockopt `switch(name)`; their agreement with the tables is stated in `Tables.OptionTableConsistent` |
| Tables.GetBranchOf | wrapper.c:392-442 | the case labels of the getsockopt `switch(name)`, which has no SUBSCRIBE or UNSUBSCRIBE case; their agreement with the tables is stated in `Tables.OptionTableConsistent` |
| Tables.OptionTableConsistent | wrapper.c:340-357 | `option_name` is injective; the setsockopt `switch(name)` selects for every option the branch of the kind `KindOf` gives it, so its `default` is reached by no option; the getsockopt switch does the same except that SUBSCRIBE and UNSUBSCRIBE, and only they, reach its `default` |
| Tables.OptionOrdinalOf | wrapper.c:340-357 | the inverse lookup of `option_name` |
| Tables.OptionLenMatchesKind | wrapper.c:359-376 | `map_option_len` gives `sizeof(int)` to the int options, 8 bytes to the int64, uint64 and bitmask options, 256 to IDENTITY, and `(size_t) -1` exactly to SUBSCRIBE and UNSUBSCRIBE |
| Flags.SendFlags | wrapper.c:228-233 | the flag word as a fold of OR over `send_flag`; what it contains is stated in `Flags.SendFlagsUnion` |
| Flags.SendFlagWord | wrapper.c:228-233 | the `while` loop over the host list computes the left fold of OR over `send_flag` |
| Flags.SendFlagsUnion | wrapper.c:228-233 | the send flag word has NOBLOCK iff ordinal 0 occurs and SNDMORE iff ordinal 1 occurs, with nothing else set; the empty list gives 0 |
| Flags.SendFlagsIgnoreOrder | wrapper.c:228-233 | lists with the same elements give the same word, whatever their order or repetitions |
| Flags.RecvFlags | wrapper.c:284-288 | the receive word is ZMQ_NOBLOCK iff the list is non-empty and its head is ordinal 1, and 0 otherwise |
| Flags.RecvFlagsHeadOnly | wrapper.c:284-288 | elements after the head never change the receive word |
| Bitmask.DecodeMask | wrapper.c:424-439 | the getsockopt loop, with the corrected 64-bit shift, fills a freshly allocated array of exactly 64 fields, field i true iff bit i of the native uint64 is set, and its result is `BitsOf(val)` |
| Bitmask.BitByDivision | wrapper.c:431-432 | the test `val & mask` with `mask` the single bit i is the parity of `val / 2^i` |
| Bitmask.MaskOf | wrapper.c:522-531 | under the corrected 64-bit shift, the word built from a boolean sequence is below 2^|s| and has bit i set iff field i is true |
| Bitmask.EncodeMask | wrapper.c:522-531 | the setsockopt loop, adding the corrected 64-bit `1 << i` for every true field, yields a uint64 whose bit i is set iff field i is true: the additions are an OR of distinct bits |
| Bitmask.DecodeEncode | wrapper.c:424-439 | under the corrected 64-bit shift, decoding the word the setsockopt loop encodes gives back the 64 booleans |
| Bitmask.EncodeDecode | wrapper.c:522-531 | under the corrected 64-bit shift, encoding the booleans the getsockopt loop decodes gives back the uint64 |
| Bitmask.EncodeInjective | wrapper.c:522-531 | under the corrected 64-bit shift, distinct boolean arrays encode to distinct words |
| Bitmask.ShiftAsWritten | wrapper.c:431 | the uint64 value of the int `1 << i` on x86-64: the count taken modulo 32, bit 31 sign-extended; its effect is stated in `Bitmask.DecodeAsWrittenAliases` and `Bitmask.EncodeAsWrittenAliases` |
| Bitmask.BitsAsWritten | wrapper.c:430-437 | the getsockopt decode loop with the 32-bit shift as written, always 64 fields; its aliasing is stated in `Bitmask.DecodeAsWrittenAliases` |
| Bitmask.MaskAsWritten | wrapper.c:526-530 | the setsockopt encode loop with the 32-bit shift as written, a sum taken modulo 2^64 and so below 2^64; its aliasing is stated in `Bitmask.EncodeAsWrittenAliases` |
| Bitmask.DecodeAsWrittenAliases | wrapper.c:431 | with `1 << i` on a 32-bit int, decoding the word 1 marks element 32 as well as element 0, where the intended decode marks element 0 only |
| Bitmask.EncodeAsWrittenAliases | wrapper.c:528 | with `1 << i` on a 32-bit int, the arrays with only element 32 and only element 0 set both encode to 1 |
| CTypes.TruncateToInt | wrapper.c:488 | `(int) v` keeps a value in the int range and otherwise agrees with v modulo 2^32 |
| CTypes.IntBytes | wrapper.c:490 | the stored image of `int_val` itself, four bytes long; `CTypes.IntRoundTrip` states that `IntAt` inverts it |
| CTypes.Int64Bytes | wrapper.c:498 | the stored image of the int64 `val` itself, eight bytes long; `CTypes.Int64RoundTrip` states that `Int64At` inverts it |
| CTypes.Uint64Bytes | wrapper.c:505 | the stored image of the uint64 `val` itself, eight bytes long; `CTypes.Uint64RoundTrip` states that `Uint64At` inverts it |
| CTypes.Int64Bits | wrapper.c:504 | the conversion of the host int64 to uint64, congruent to it modulo 2^64; `CTypes.Int64BitsInverse` states that `Int64OfBits` inverts it |
| CTypes.Int64OfBits | wrapper.c:411 | the conversion of the native uint64 to the host int64, whose uint64 image is the value read |
| CTypes.IntAt | wrapper.c:397 | the read `*((int*) p)` itself; that it inverts the stored image is `CTypes.IntRoundTrip` |
| CTypes.Int64At | wrapper.c:404 | the read `*((int64*) p)` itself; that it inverts the stored image is `CTypes.Int64RoundTrip` |
| CTypes.Uint64At | wrapper.c:410 | the read `*((uint64*) p)` itself; that it inverts the stored image is `CTypes.Uint64RoundTrip` |
| CTypes.Int32BitsInverse | wrapper.c:397 | reading a C int back from its two's-complement image gives the int |
| CTypes.IntRoundTrip | wrapper.c:397 | reading `*((int*) p)` from the bytes setsockopt stores for a C int (line 490) gives the int |
| CTypes.Int64RoundTrip | wrapper.c:404 | reading `*((int64*) p)` from the bytes setsockopt stores for an int64 (line 498) gives the int64 |
| CTypes.Uint64RoundTrip | wrapper.c:410 | reading `*((uint64*) p)` from the bytes setsockopt stores for a uint64 (line 505) gives the uint64 |
| CTypes.IntImageOfRead | wrapper.c:397 | every four bytes are the stored image of the int read from them, so the read is a bijection with `IntBytes` |
| CTypes.Uint64ImageOfRead | wrapper.c:410 | every eight bytes are the stored image of the uint64 read from them |
| CTypes.Int64ImageOfRead | wrapper.c:404 | every eight bytes are the stored image of the int64 read from them |
| CTypes.Int64BitsInverse | wrapper.c:504 | the int64 to uint64 conversion on set and the uint64 to int64 conversion on get (line 411) are inverse |
| Options.Saturate | wrapper.c:483-490 | the written int is never above INT_MAX; it is INT_MAX for a host int above it, the host int itself within the int range, and congruent to it modulo 2^32 below INT_MIN |
| Options.SetRequestOf | wrapper.c:477-533 | the arguments each setsockopt branch passes to zmq_setsockopt; their shape is stated in `Options.SetRequestShape` and their round trips in `Options.SetThenGetInt`, `Options.SetThenGetInt64` and `Options.SetThenGetBitmask` |
| Options.SetRequestShape | wrapper.c:477-533 | each option is written under its own native name; the fixed-width kinds pass a buffer exactly as long as the length given, which is the table's width; IDENTITY and SUBSCRIBE/UNSUBSCRIBE give the width of a pointer; only `None` passes NULL |
| Options.SetSpec | wrapper.c:538-554 | setsockopt returns unit iff zmq_setsockopt returned 0; otherwise the exception is named after the errno if it is EINVAL, ETERM, EFAULT or EINTR, and "ERR" if not |
| Options.Setsockopt | wrapper.c:468-555 | the switch on the native name encodes the value as `SetRequestOf` does, reaches no `default`, and gives the outcome `SetSpec` assigns to zmq_setsockopt's answer |
| Options.CString | wrapper.c:414-418 | the C string of a buffer is its longest NUL-free prefix, ended by a NUL or by the end of the buffer |
| Options.DecodeIdentity | wrapper.c:413-423 | the IDENTITY value is None iff the native C string is empty, and otherwise Some of exactly that string |
| Options.GetSpec | wrapper.c:378-466 | a non-zero rc raises the getsockopt exception for the errno, never a value; with rc 0 every option yields a value that fits its kind except SUBSCRIBE and UNSUBSCRIBE, which raise "ERR" |
| Options.GetDecodes | wrapper.c:413-439 | a successful get of MCAST_LOOP or AFFINITY yields, under the corrected 64-bit shift, 64 booleans, the i-th true iff bit i of the native uint64 is set; a get of IDENTITY yields None iff the first byte is NUL |
| Options.Getsockopt | wrapper.c:378-466 | asks zmq_getsockopt for the option with the table's width, switches on the native name and decodes as `GetSpec` specifies |
| Options.SetThenGetInt | wrapper.c:483-490 | on the option store, get after set of an int option (get decodes at line 397) returns the saturated value: the host int iff it is in the int range, and INT_MAX for anything larger |
| Options.SetThenGetInt64 | wrapper.c:493-506 | on the option store, get after set of an int64 option (get decodes at lines 404 and 410) returns the int64, both with native int64 and with native uint64 |
| Options.SetThenGetBitmask | wrapper.c:522-531 | on the option store, get after set of MCAST_LOOP or AFFINITY (get decodes at lines 424-439) returns the 64 booleans bit for bit, under the corrected 64-bit shift |
| Errors.InitFailure | wrapper.c:71-77 | init raises "EINVAL" for EINVAL and "ERR" otherwise |
| Errors.SocketFailure | wrapper.c:94-103 | socket raises the errno's name for EINVAL, EFAULT and ETERM, and "ERR" otherwise |
| Errors.BindFailure | wrapper.c:121-140 | bind raises the errno's name for its eight listed codes, and "ERR" otherwise |
| Errors.ConnectFailure | wrapper.c:159-172 | connect raises the errno's name for its five listed codes, and "ERR" otherwise |
| Errors.ConnectAgreesWithBind | wrapper.c:159-172 | every code connect lists gets the same exception and message as in the bind switch (lines 121-140) |
| Errors.CloseFailure | wrapper.c:188-193 | close raises "EFAULT" for EFAULT and "ERR" otherwise |
| Errors.TermFailure | wrapper.c:209-216 | term raises the errno's name for EFAULT and EINTR, and "ERR" otherwise |
| Errors.MsgInitSizeFailure | wrapper.c:239-245 | a failed message allocation raises "ENOMEM" for ENOMEM and "ERR" otherwise |
| Errors.SendFailure | wrapper.c:260-275 | send raises the errno's name for its six listed codes, and "EINTR" for every other code |
| Errors.SendDefaultLooksInterrupted | wrapper.c:271-274 | an unlisted send errno is raised under the same name as a genuine interruption; only the message tells them apart |
| Errors.RecvFailure | wrapper.c:320-335 | receive raises the errno's name for its six listed codes, and "ERR" otherwise |
| Errors.GetsockoptFailure | wrapper.c:446-465 | getsockopt raises "EINVAL", "ETERM" or "EINTR" for those codes, "ETERM" for EFAULT, and "ERR" otherwise; no other name is possible |
| Errors.GetsockoptTermAmbiguous | wrapper.c:451-458 | a getsockopt failure is named "ETERM" exactly for ETERM and EFAULT; the two differ only in the message |
| Errors.SetsockoptFailure | wrapper.c:543-554 | setsockopt raises the errno's name for EINVAL, ETERM, EFAULT and EINTR, and "ERR" otherwise |
| Messages.Send | wrapper.c:221-276 | fails with the allocation exception if the message of the string's length cannot be made; otherwise zmq_send receives exactly the string's bytes and the OR of the flag list, and send succeeds iff it returns 0, with its failure translated by the send switch |
| Messages.Recv | wrapper.c:278-336 | raises "ERR" if the message cannot be initialised, the recv exception if zmq_recv fails, and "ERR" with the zmq_msg_close message if closing fails after a successful receive; succeeds iff zmq_recv and zmq_msg_close both return 0, and then returns exactly the received bytes |
| Lifecycle.Init | wrapper.c:59-78 | zmq_init receives the thread count through the `(int)` conversion; init returns the context iff one was produced, else the init exception for the errno |
| Lifecycle.InitPassesThreadCount | wrapper.c:64 | a thread count in the int range reaches zmq_init unchanged |
| Lifecycle.InitWrapsThreadCount | wrapper.c:64 | thread counts 2^32 apart make the same zmq_init call |
| Lifecycle.Socket | wrapper.c:80-104 | zmq_socket receives `socket_type[t]`; socket returns the socket iff one was produced, else the socket exception for the errno |
| Lifecycle.Bind | wrapper.c:106-141 | bind succeeds iff zmq_bind returns 0, else raises the bind exception for the errno |
| Lifecycle.Connect | wrapper.c:144-173 | connect succeeds iff zmq_connect returns 0, else raises the connect exception for the errno |
| Lifecycle.Close | wrapper.c:175-194 | close succeeds iff zmq_close returns 0, else raises the close exception for the errno |
| Lifecycle.Term | wrapper.c:196-217 | term succeeds iff zmq_term returns 0, else raises the term exception for the errno |

## Left out

- The `zmq_*` calls themselves are oracles. Their arguments are stated; what the library does with them is not modelled. That covers contexts, sockets, transports, the message queue and the option storage. The one exception is the idealised option store used for the round-trip lemmas.
- `caml_enter_blocking_section` / `caml_leave_blocking_section` (wrapper.c:251-253, 299-301) are left out: they only govern concurrency with the OCaml runtime.
- OCaml value plumbing is left out: `CAMLparam`, `Val_int`, `Field`, `Store_field` and GC roots. Host values are Dafny datatypes, and a host list is a sequence of ordinals.
- `printf` in `wrap_bind` and `wrap_recv` (wrapper.c:120, 286) and `wrap_version` (wrapper.c:38-57) are left out as output. In `wrap_bind` the `printf` sits between the failed `zmq_bind` and the `switch(zmq_errno())`; the model assumes it leaves `errno` unchanged.
- Memory release is not modelled:
  - the getsockopt buffer is never freed (wrapper.c:387);
  - for SUBSCRIBE/UNSUBSCRIBE it is `malloc((size_t) -1)`;
  - send never closes its message;
  - receive closes it only on success.
  A failed `malloc` is not modelled either.
- There is no round trip for IDENTITY set or SUBSCRIBE/UNSUBSCRIBE. Those set calls pass `sizeof` of a pointer (8) as the length instead of the string's length (wrapper.c:510-519). What the native side then reads depends on memory beyond the string, so only the request shape is stated (`Options.SetRequestShape`).
- Options.CString: when the 256-byte identity buffer holds no NUL, `strcmp` and `caml_copy_string` read past it. The model stops at the end of the buffer.
- Options.Getsockopt: the native call is assumed to write a buffer of the table's width when it succeeds (`ReplyFits`). The length zmq_getsockopt writes back into `option_len` is ignored, as in the source.
- Options.Getsockopt: the MCAST_LOOP/AFFINITY branch decodes with the corrected 64-bit shift (`Bitmask.DecodeMask`), not with the 32-bit `1 << i` of wrapper.c:431. The loop as written is modelled only by `Bitmask.BitsAsWritten`. The same holds for `Options.GetSpec` and `Options.GetDecodes`.
- Options.Setsockopt: the MCAST_LOOP/AFFINITY branch encodes with the corrected 64-bit shift (`Bitmask.EncodeMask`), not with the 32-bit `1 << i` of wrapper.c:528. The loop as written is modelled only by `Bitmask.MaskAsWritten`. The same holds for `Options.SetRequestOf` and `Options.SetThenGetBitmask`.
- Options.Setsockopt: the host value is assumed to have the representation the option's OCaml type gives it (`Fits`), including the 64 fields the bitmask loop reads. The `default` branch is not modelled, because `Tables.OptionTableConsistent` shows that no option reaches it.
- Bitmask.DecodeAsWrittenAliases: `1 << i` on an `int` for i ≥ 31 is undefined behaviour in C. The as-written members assume x86-64 behaviour: the shift count is taken modulo 32, and bit 31 sign-extends when widened to 64 bits.
- Lifecycle.Init: the host handles are opaque `Handle` values. Passing a context or socket pointer through the OCaml heap is not modelled.

## Findings

| source | as written | input that shows it | evidently intended | confidence | as-written member | corrected member |
|---|---|---|---|---|---|---|
| wrapper.c:431 | `mask = 1 << i` shifts the 32-bit int 1. For i ≥ 31 the shift overflows, and on x86-64 the count wraps modulo 32 | the native word 1: the decoded array has element 32 set as well as element 0 | `mask = (uint64) 1 << i`, so element i is bit i | not executed | Bitmask.DecodeAsWrittenAliases | Bitmask.DecodeMask |
| wrapper.c:528 | `val += 1 << i` adds a 32-bit int shift, so the fields from 31 up land on the wrong bits | the arrays with only element 32 set and with only element 0 set both encode to 1 | `val += (uint64) 1 << i`, so the encoding is injective and decodes back | not executed | Bitmask.EncodeAsWrittenAliases | Bitmask.EncodeMask |
