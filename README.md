# mdb-go document store, modelled in Dafny

`mdb` is a minimal embedded document store written in Go. A `Database` holds an
in-memory map from identifier strings to `Document{Created, Edited, Doc}`.
`Get` looks an identifier up. `Put` stores a payload under a newly generated
identifier. `Update` replaces a payload and its edited time. `Delete` removes an
entry. Identifiers come from `uuid`, which fills 16 bytes from the secure random
source, forces the version and variant bits, and prints the bytes as five
upper-case hexadecimal groups in the version 4 layout of section 4.4 of
RFC 4122.

The project has three modules:

- `Results` (`results.dfy`): the error values (`NotFound(id)`,
  `RandomSourceFailed(reason)`), `Result<T>` for `(value, error)` returns,
  `Outcome` for bare `error` returns, and the text of the not-found message.
- `Uuid` (`uuid.dfy`): the masking (`SetVersion`, `SetVariant`, `Mask`), Go's
  `%X` on a byte slice (`Hex`), the five-group print (`Format`), the generator
  (`NewId`, `Generate`), and an independent reader (`Unhex`, `Parse`, with its
  own `Option` type). The
  reader is the printer's inverse in both directions. The random bytes are an
  input (`RandomRead`).
- `Mdb` (`mdb.dfy`): `Document` as a datatype, and `Database` as a class whose
  `data: map<string, Document>` field the methods `Put`, `Update` and `Delete`
  change in place (`modifies this`). `Get` is a reading function. The clock
  readings are string parameters.

Three points where the model follows the code rather than a reading of its intent:

- `Put` reads the clock twice (mdb.go:91-92), once for the creation time and
  once for the edited time. So `Put` takes two timestamps, and the model does
  not promise `created == edited`.
- `Put` assigns `db.Data[pid]` without checking for an existing key
  (mdb.go:90). On an identifier collision, the model therefore overwrites the
  existing entry (`data == old(data)[id := …]`). It does not claim that an
  existing key is never overwritten.
- The masks `(b | 0x40) & 0x4F` and `(b | 0x80) & 0xBF` (mdb.go:130, 132) are
  easy to take for non-standard ones. `SetVersion` and `SetVariant` prove they
  equal the canonical `(b & 0x0F) | 0x40` and `(b & 0x3F) | 0x80` for every byte.

## Model

| member | source | states |
|---|---|---|
| Results.Message | mdb.go:80 | a not-found error's message is the fixed prefix "document id doesn't exist: " followed by the identifier; a random-source error's message is its reason |
| Results.NotFoundMessageInjective | mdb.go:80 | two not-found messages are equal only when they name the same identifier |
| Uuid.HexDigit | mdb.go:134 | a nibble prints as an upper-case hexadecimal digit that reads back as the same nibble |
| Uuid.Hex | mdb.go:134 | `%X` on a byte slice prints exactly two upper-case hexadecimal digits per byte |
| Uuid.HexAt | mdb.go:134 | byte k prints its high nibble at offset 2k and its low nibble at offset 2k+1 |
| Uuid.HexAppend | mdb.go:134 | printing a concatenation gives the two prints one after the other |
| Uuid.UnhexHex | mdb.go:134 | reading the hexadecimal print of any byte sequence gives that sequence back |
| Uuid.HexUnhex | mdb.go:134 | every digit string that reads successfully is the print of what it reads to |
| Uuid.SetVersion | mdb.go:129-130 | the source's mask (or 0x40, then and 0x4F) equals the canonical one (and 0x0F, then or 0x40), gives high nibble 4 and keeps the low nibble |
| Uuid.SetVariant | mdb.go:131-132 | the source's mask (or 0x80, then and 0xBF) equals the canonical one (and 0x3F, then or 0x80), gives top bits 10 and keeps the low six bits |
| Uuid.Mask | mdb.go:129-132 | the masked buffer is version 4, differs from the random bytes only in the forced bits of bytes 6 and 8, and leaves an already version 4 buffer unchanged |
| Uuid.Format | mdb.go:134 | the print is 36 characters, with hyphens at offsets 8, 13, 18 and 23 and an upper-case hexadecimal digit everywhere else (groups 8-4-4-4-12) |
| Uuid.FormatDigits | mdb.go:134 | with the hyphens removed, the print is the whole buffer in hexadecimal |
| Uuid.JoinGroups | mdb.go:134 | in the hyphen-joined groups, each group sits at its fixed offset |
| Uuid.HexGroups | mdb.go:134 | the five group prints together are the print of the whole buffer |
| Uuid.ParseFormat | mdb.go:134 | parsing the print of any 16 bytes gives those bytes back, so the print loses nothing |
| Uuid.FormatParse | mdb.go:134 | every string that parses equals the print of its bytes, so the print is the only accepted spelling |
| Uuid.VersionDigits | mdb.go:129-134 | the print of a version 4 buffer has `4` as its 13th digit (offset 14) and one of 8, 9, A, B as its 17th digit (offset 19) |
| Uuid.NewId | mdb.go:129-134 | the identifier for any 16 random bytes is UUID-shaped, has version digit `4` and variant digit in {8,9,A,B}, and parses back to the masked bytes |
| Uuid.Version4IdsAreGenerated | mdb.go:129-134 | every version 4 identifier is produced by some random input, namely its own bytes |
| Uuid.NewIdDeterminedByMask | mdb.go:129-134 | two random inputs yield the same identifier exactly when their masked buffers are equal |
| Uuid.Generate | mdb.go:122-136 | a failed random read gives that read's error; a successful read gives the version 4 identifier for the bytes read |
| Mdb.Database.constructor | mdb.go:24-29 | a new database has an empty map |
| Mdb.Database.Get | mdb.go:75-82 | succeeds exactly when `id` is a key, returns the stored document, otherwise fails with NotFound(id); reads the map and changes nothing |
| Mdb.Database.Put | mdb.go:84-96 | a failed random read returns its error and leaves the map unchanged; otherwise returns the version 4 identifier for the bytes, which now maps to (created, edited, doc), and every other entry is unchanged |
| Mdb.Database.Update | mdb.go:98-110 | on a key: sets the payload and edited time, keeps the creation time, and leaves the key set and all other entries unchanged; on a missing id: fails with NotFound(id) and leaves the map unchanged |
| Mdb.Database.Delete | mdb.go:112-119 | on a key: the new map is the old map minus that key, one entry smaller; on a missing id: fails with NotFound(id) and leaves the map unchanged |
| Mdb.Lifecycle | mdb.go:75-119 | on a fresh database, put "abc", get, update to "def", get, delete, get: the update and the delete succeed, and the reads return ("abc", created kept), then ("def", created kept), then NotFound |

## Left out

- `Load` and `Commit` (mdb.go:31-73) are not modelled. They are file-system I/O (stat, create, open, truncate) plus JSON encoding and decoding through `encoding/json`, which is not part of this model. A commit/load round trip cannot be stated without it.
- `crypto/rand.Read` (mdb.go:124) is a foreign entropy source. Its outcome is the `Uuid.RandomRead` input: either 16 bytes or a failure with a reason. Filling exactly 16 bytes on success is that library's contract, taken as a precondition.
- `time.Now().UTC().String()` (mdb.go:91-92, 105) is a foreign clock. Its readings are opaque string parameters, so no ordering of `created` and `edited` is claimed.
- Uniqueness of identifiers is not modelled. It is a probabilistic property the code never checks. The model states only that an identifier is determined by its masked bytes (`Uuid.NewIdDeterminedByMask`).
- Aliasing: `Get` returns a pointer to a copy of the stored value (mdb.go:78). The model returns the document as a value, which is what that copy amounts to.
- The Go error values are modelled as `Results.Error`, a datatype, not as Go's `error` interface. Only the not-found message text is modelled (`Results.Message`). A random-source error keeps its reason string.
- Only databases made by `NewDatabase` (mdb.go:24-29) are modelled: `data` always holds a map. A Go `Database` whose `Data` is nil (the zero value `&Database{}`, or one loaded from `{"data":null}`) panics on the map write in `Put` (mdb.go:90). `Update` and `Delete` call `Get` first (mdb.go:100, 114). Reading a nil map finds no key, so they return NotFound without writing (mdb.go:101-102, 114-115). The model does not capture the panic in `Put`.
