# strbuilder in Dafny

A model of the growable string builder in `strbuilder.c`: an append-only
character accumulator over a heap buffer. The struct `str_builder_t` has four
fields: `buffer` (the storage), `offset` (the write cursor, always on the
terminating NUL), `size` (the allocated capacity) and `chunk` (the growth
step). `_resize` grows `size` a chunk at a time and then reallocates.
`_append` copies bytes at the cursor and rewrites the terminator. The public
appenders (`str_builder_append`, `str_builder_nappend`, `str_builder_sprintf`
and the two dotted-quad helpers) are front ends to that step.

Files and modules:

- `libc.dfy` — module `LibC`: a C pointer argument (`CStr`: NULL, or the readable memory behind it), and `strlen`/`strnlen` as functions that say which terminator they find.
- `decimal.dfy` — module `Decimal`: printf's `%u` rendering (`ToDecimal`) with its parser (`FromDecimal`), and the `"%u.%u.%u.%u"` text (`DottedQuad`) with its parser (`ParseDotted`). Both round trips are proved.
- `ipv4.dfy` — module `Ipv4`: octet extraction `(ip >> shift) & 0xFF` on a 32-bit vector, the octet orders of the two helpers, and their texts.
- `strbuilder.dfy` — module `StrBuilder`: `GrownSize`, the capacity `_resize` settles on, with its lemmas; and class `StrBuilder`, the struct with one method per C function.
- `scenarios.dfy` — module `Scenarios`: every test case of `test_strbuilder.cpp`, with every allocation succeeding, proved first for arbitrary inputs and then for the test's own inputs. Three more scenarios do not come from the tests: the two dotted-quad helpers on 0x0A141E28 (also proved for any address) and a failed malloc in `str_builder_init` (`FailedInitIsSticky`).

How the model is built:

- The invariant `Valid()` holds in every state after `Init`, including the failed one. It says: `chunk > 0`, `offset < size`, and `size` is a whole number of chunks. When the storage is live it also says `buffer.Length == size` and `buffer[offset] == NUL`.
- The failed state is the one the C code uses: `buffer == null`. It starts when malloc or realloc fails, and only a new `Init` ends it. Until then `Resize` does nothing, every appender returns -1, and `Size` returns -1.
- Whether malloc or realloc succeeds is not known to the code, so it is a `bool` parameter (`allocOk`, `reallocOk`) of every method that allocates.
- `memcpy` and realloc's copy are `forall` statements.
- After `Free` no appender may be called. `Free` itself may be called again only on a failed builder. A ghost flag `freed` enforces both. `Init` may start the builder over.
- Calling `str_builder_free` twice on live storage is undefined in C (strbuilder.c:176-179); `free(NULL)` is harmless.
- `str_builder_size` reports a failed builder as -1 (strbuilder.c:169-174).
- `str_builder_append` and `str_builder_nappend` stop at the first NUL of `src`; `_append` and `str_builder_sprintf` copy any bytes, NUL included.

## Model

| member | source | states |
|---|---|---|
| `LibC.Strlen` | strbuilder.c:49 | the length `str_builder_append` copies is the index of the first NUL in `src`; no earlier byte is NUL |
| `LibC.Strnlen` | strbuilder.c:64 | the length `str_builder_nappend` copies is at most `limit`; the bytes before it are not NUL; it stops at `limit` or at a NUL |
| `LibC.StrnlenIsMinStrlen` | strbuilder.c:64 | on NUL-terminated input, `strnlen(src, limit)` equals `min(strlen(src), limit)` |
| `LibC.StrlenLiteral` | test_strbuilder.cpp:55-60 | a literal followed by its terminator has `strlen` equal to the literal's length, and its first `strlen` bytes are the literal |
| `Decimal.ToDecimal` | strbuilder.c:124 | `%u` gives at least one character, only digits, and no leading zero except for the number 0 |
| `Decimal.DecimalRoundTrip` | strbuilder.c:124 | parsing the `%u` numeral of `n` gives back `n` |
| `Decimal.DecimalLength` | strbuilder.c:124-128 | a number below 1000 (every octet) renders in one to three digits, two from 10 and three from 100 |
| `Decimal.DottedQuad` | strbuilder.c:124 | definition: the `"%u.%u.%u.%u"` text of four numbers, each rendered by `ToDecimal` |
| `Decimal.DottedQuadFields` | strbuilder.c:124 | `"%u.%u.%u.%u"` splits at its dots into exactly its four numerals |
| `Decimal.DottedQuadRoundTrip` | strbuilder.c:124 | parsing the dotted-quad text of four numbers gives back those four numbers |
| `Decimal.DottedQuadLength` | strbuilder.c:124-128 | four octets render as seven to fifteen characters |
| `Ipv4.Octet` | strbuilder.c:125-128 | definition: the octet `(ip >> shift) & 0xFF` of a 32-bit address |
| `Ipv4.BeOctets` | strbuilder.c:125-128 | definition: the big-endian argument list `ip>>24, ip>>16, ip>>8, ip`, each masked to one octet |
| `Ipv4.LeOctetsAsWritten` | strbuilder.c:144-147 | definition: the little-endian argument list as written, shifts 0, 8, 24, 24 |
| `Ipv4.OctetValue` | strbuilder.c:125-128 | each octet `(ip >> k) & 0xFF` is the address divided by 256 to the power k/8, modulo 256; the four octets weighted by 2^24, 2^16, 2^8 and 1 sum to the address |
| `Ipv4.BeOctetsRoundTrip` | strbuilder.c:122-129 | the big-endian octets `ip>>24, ip>>16, ip>>8, ip` (each masked) rebuild `ip` exactly |
| `Ipv4.BeTextRoundTrip` | strbuilder.c:122-129 | the text of `str_builder_append_ip_be` parses back to its four octets and is 7 to 15 characters long |
| `Ipv4.BeTextInjective` | strbuilder.c:122-129 | different addresses get different big-endian texts |
| `Ipv4.LeOctetsReverseBe` | strbuilder.c:141-148 | the corrected little-endian octets are the big-endian ones in reverse order, and they rebuild `ip` |
| `Ipv4.LeTextInjective` | strbuilder.c:141-148 | with the corrected octet order, different addresses get different little-endian texts |
| `Ipv4.LeAsWrittenIgnoresThirdOctet` | strbuilder.c:141-148 | the as-written little-endian text never depends on bits 16-23 of `ip` |
| `Ipv4.LeAsWrittenCollides` | strbuilder.c:141-148 | as written, 0x00000000 and 0x00010000 both render as "0.0.0.0" |
| `Ipv4.ExampleTexts` | strbuilder.c:122-148 | 0x0A141E28 renders "10.20.30.40" big-endian, "40.30.20.10" little-endian when corrected, and "40.30.10.10" as written |
| `StrBuilder.GrownSize` | strbuilder.c:194-197 | definition: the `_resize` loop, adding one chunk to the size while it is below `desired_size` |
| `StrBuilder.GrownSizeCovers` | strbuilder.c:194-197 | the grown capacity is at least `desired_size` and at least the old size; it differs from the old size by whole chunks; if it grew, one chunk less would not cover `desired_size`; if the old size already covers it, nothing changes |
| `StrBuilder.GrownSizeLeast` | strbuilder.c:194-197 | no capacity reachable from the old size in whole chunks that covers `desired_size` is smaller than the grown one |
| `StrBuilder.GrownSizeMultiple` | strbuilder.c:194-197 | a capacity that is a whole number of chunks stays one after growing |
| `StrBuilder.StrBuilder.Init` | strbuilder.c:16-32 | sets `size == chunk`, `chunk == chunk` and `offset == 0`; on success returns 0 with `buffer[0] == NUL` and empty contents; if malloc fails returns -1 with `buffer == null` |
| `StrBuilder.StrBuilder.Resize` | strbuilder.c:181-200 | with no storage, does nothing; otherwise `size` becomes `GrownSize(old size, chunk, desired_size)` and the cursor stays put; a successful realloc keeps every old byte; a failed one leaves `buffer == null` |
| `StrBuilder.StrBuilder.AppendRaw` | strbuilder.c:206-233 | on success returns `len`; the new contents are the old ones followed by `src[..len]`; `offset` grows by `len`; the terminator is at the new `offset`. Returns -1 when there was no storage (nothing changes) or when realloc fails (storage gone) |
| `StrBuilder.StrBuilder.WriteAt` | strbuilder.c:224-230 | with room for the bytes: writes `src[..len]` at the cursor, moves the cursor by `len`, puts the terminator at the new cursor, and keeps the invariant |
| `StrBuilder.StrBuilder.Append` | strbuilder.c:40-53 | a NULL `src` returns -1 and changes nothing; otherwise appends exactly the bytes before the first NUL of `src` and returns their count, with the capacity grown to `GrownSize(size, chunk, offset + strlen(src) + 1)`. On an already failed builder returns -1 with cursor and capacity unchanged; a failed realloc returns -1, leaves the storage gone and keeps the cursor |
| `StrBuilder.StrBuilder.NAppend` | strbuilder.c:55-68 | a NULL `src` returns -1 and changes nothing; otherwise appends the first `strnlen(src, limit)` bytes (at most `limit`) and returns their count, with the capacity grown to `GrownSize(size, chunk, offset + that count + 1)`. On an already failed builder returns -1 with cursor and capacity unchanged; a failed realloc returns -1, leaves the storage gone and keeps the cursor |
| `StrBuilder.StrBuilder.Sprintf` | strbuilder.c:70-110 | a NULL `format` returns -1 and changes nothing; with no storage returns -1 with cursor and capacity unchanged; otherwise grows to `GrownSize(size, chunk, offset + len + 1)`. A failed realloc returns -1 and keeps the cursor; on success the contents gain exactly the rendered text, the cursor moves past it onto a NUL, and its length is returned |
| `StrBuilder.StrBuilder.AppendIpBe` | strbuilder.c:122-129 | on success appends `BeText(ip)` (most significant octet first, 7 to 15 characters), moves the cursor past it onto a NUL and returns its length. The capacity becomes `GrownSize(size, chunk, offset + n + 1)`, where n is the text's length. An already failed builder returns -1 with cursor and capacity unchanged; a failed realloc returns -1 and keeps the cursor |
| `StrBuilder.StrBuilder.AppendIpLe` | strbuilder.c:141-148 | as written: on success appends `LeTextAsWritten(ip)` (octets `ip`, `ip>>8`, `ip>>24`, `ip>>24`, each masked) and returns its length. Capacity, cursor and failure paths are as for `AppendIpBe` |
| `StrBuilder.StrBuilder.AppendIpLeCorrected` | strbuilder.c:141-148 | the corrected helper from the Findings table: on success appends `LeText(ip)` (least significant octet first, the big-endian text reversed). Capacity, cursor and failure paths are as for `AppendIpBe` |
| `StrBuilder.StrBuilder.Get` | strbuilder.c:164-167 | returns NULL exactly in the failed state; otherwise storage whose first `offset` bytes are the contents, followed by a NUL |
| `StrBuilder.StrBuilder.Size` | strbuilder.c:169-174 | -1 exactly in the failed state; otherwise the number of bytes appended, without the terminator |
| `StrBuilder.StrBuilder.Free` | strbuilder.c:176-179 | releases the builder; a second release is allowed only when `buffer` is NULL; no field changes |
| `Scenarios.OneAppend` | test_strbuilder.cpp:8-27 | one append of a NUL-free string onto a fresh builder, with any chunk, reads back that string, with its length as the size |
| `Scenarios.AppendOneString` | test_strbuilder.cpp:8-27 | "Hello, World!" with chunk 1024 reads back unchanged, size 13 |
| `Scenarios.AppendReallyLongString` | test_strbuilder.cpp:137-156 | the test's 168-character text with chunk 16 reads back unchanged, size 168 |
| `Scenarios.TwoAppends` | test_strbuilder.cpp:50-72 | two appends onto a fresh builder, with any chunk, read back as the concatenation, with the summed length |
| `Scenarios.AppendTwoStrings` | test_strbuilder.cpp:50-72 | "Hello, " then "World!" reads back "Hello, World!", size 13 |
| `Scenarios.OneSprintf` | test_strbuilder.cpp:74-93 | one formatted append onto a fresh builder, with any chunk, reads back its rendering, with its length as the size |
| `Scenarios.SprintfOneInt` | test_strbuilder.cpp:74-93 | "%d" of 10 reads back "10", size 2 |
| `Scenarios.SprintfTwoInts` | test_strbuilder.cpp:95-114 | "%d %d" of 10 and 25 reads back "10 25", size 5 |
| `Scenarios.SprintfLargeBuffer` | test_strbuilder.cpp:116-135 | the rendering "10 25 1.53 Hello, World!" with chunk 16 reads back unchanged, size 24 |
| `Scenarios.TwoSprintfs` | test_strbuilder.cpp:159-179 | two formatted appends read back as the concatenation of their renderings |
| `Scenarios.SprintfTwice` | test_strbuilder.cpp:159-179 | "%d" of 10 then "%d" of 25 reads back "1025", size 4 |
| `Scenarios.AppendOneChunk` | test_strbuilder.cpp:29-48 | appending exactly `chunk` bytes reads back that text; the capacity becomes two chunks, since the terminator needs one byte more |
| `Scenarios.AppendFullChunk` | test_strbuilder.cpp:29-48 | "1234567890123456" with chunk 16 reads back unchanged, size 16, capacity 32 |
| `Scenarios.NAppendLonger` | test_strbuilder.cpp:181-200 | a bounded append of a longer NUL-free string keeps exactly its first `limit` bytes |
| `Scenarios.NAppendCutsAtLimit` | test_strbuilder.cpp:181-200 | `nappend("1234567890", 8)` reads back "12345678", size 8 |
| `Scenarios.AppendIpBeOnce` | strbuilder.c:122-129 | the big-endian helper onto a fresh builder, with any chunk and any address, reads back `BeText(ip)`, 7 to 15 characters long |
| `Scenarios.AppendIpExample` | strbuilder.c:122-129 | the big-endian helper on 0x0A141E28 reads back "10.20.30.40", size 11 |
| `Scenarios.AppendIpLeOnce` | strbuilder.c:141-148 | the little-endian helper onto a fresh builder, with any chunk and any address, reads back `LeTextAsWritten(ip)`; its corrected version reads back `LeText(ip)` |
| `Scenarios.AppendIpLeExample` | strbuilder.c:141-148 | the little-endian helper on 0x0A141E28 reads back "40.30.10.10" as written and "40.30.20.10" corrected |
| `Scenarios.SprintfSprintfAppend` | test_strbuilder.cpp:202-223 | two formatted appends and then a plain append, with any chunk and any lengths, read back as the concatenation of all three, with the summed length |
| `Scenarios.SprintfLots` | test_strbuilder.cpp:202-223 | the test's three texts, two formatted with "%s" and one appended, read back as their concatenation, size 1582 |
| `Scenarios.FailedInitIsSticky` | strbuilder.c:23-26 | after malloc fails in init, an append returns -1, the size query returns -1, and releasing twice is allowed |

## Left out

- General printf formatting (`vsnprintf`/`vsprintf`) is a libc engine, and `%0.2f` is floating point. `Sprintf` takes the rendered text as a parameter; `format` is only checked for NULL.
- `StrBuilder.StrBuilder.Sprintf`: does not relate `rendered` to `format` and its arguments. The measured length and the written text are assumed to be the same string, as the C standard promises for `vsnprintf` and `vsprintf`.
- A negative return from `vsnprintf` is not modelled (strbuilder.c:82).
- The `int` truncation of `len` and `desired_size` is not modelled (strbuilder.c:49, 64, 87, 210). The `size_t` width of `offset`, `size` and `chunk`, and overflow of `offset + len + 1`, are not modelled either. All counters are unbounded `nat`.
- Memory is not modelled beyond one array per allocation. The old buffer a failed realloc leaks (strbuilder.c:199) is not tracked. Bytes past the terminator hold a placeholder, not indeterminate values.
- `StrBuilder.StrBuilder.Free`: records the release in a ghost flag instead of invalidating the storage. `Get` and `Size` after a release are therefore not excluded, although in C they return a dangling pointer.
- Calling `Init` again on a live builder leaks its old buffer; the model does not track this.
- `chunk == 0` is excluded by `Init`'s precondition. With it, the C code writes out of bounds (strbuilder.c:22-29) and `_resize` never ends (strbuilder.c:194-197).
- A `src` that overlaps the builder's own storage (appending a builder to itself) is out of scope: `src` is a value, so the model has no aliasing.
- Characters are Dafny `char`s standing for C `char` bytes. Only the NUL terminator is distinguished; there is no encoding.
- The test harness is not modelled: gtest, `puts` and `main` (test_strbuilder.cpp:225-228). The tests' checks of `result[len] == '\0'` are covered by `Get`'s ensures, not restated in the scenarios. The printf engine is not modelled, so the formatted scenarios take the test's expected rendering as input. The doc comments of the IP helpers are swapped (strbuilder.c:112-121, 131-140); that is documentation only and is not modelled.

## Findings

| source | as written | input that shows it | evidently intended | confidence | as-written member | corrected member |
|---|---|---|---|---|---|---|
| strbuilder.c:141-148 | `str_builder_append_ip_le` passes the octets `ip & 0xFF`, `(ip >> 8) & 0xFF`, `(ip >> 24) & 0xFF`, `(ip >> 24) & 0xFF`: bits 24-31 twice, bits 16-23 never | `0x00000000` and `0x00010000` both render "0.0.0.0"; `0x0A141E28` renders "40.30.10.10" | the third octet is `(ip >> 16) & 0xFF`, giving "40.30.20.10", the big-endian text reversed | high (not executed) | `Ipv4.LeAsWrittenCollides` | `Ipv4.LeTextInjective` |

`StrBuilder.StrBuilder.AppendIpLe` appends the as-written text (`Ipv4.LeTextAsWritten`). `StrBuilder.StrBuilder.AppendIpLeCorrected` appends the corrected one (`Ipv4.LeText`, built from `Ipv4.LeOctets`).
