# Telemetry server core, modelled in Dafny

The server keeps the latest telemetry record of every device in an in-memory
map keyed by a string (`telemetryDB`), and resolves small integer device ids
to network addresses through a second map (`listIPs`). It fills that second
map once at startup from the lines of `ip.cfg`, and builds from it the URI of
the device it asks for its status. This project models those three pieces:

- `telemetry.dfy` (module `Telemetry`): the store as a class over
  `map<string, T>`. The record type `T` is opaque. `Put` models
  `putTelemetry`: a body that fails to bind is answered with 400 and stores
  nothing; a body that binds is stored under the key, replacing any earlier
  record, and is answered with 200. `Get` models `getTelemetry`: the stored
  record, or 404 "not found". The pure functions `Upsert`, `Lookup` and
  `ApplyPuts` give the same store semantics on map values, and the lemmas say
  what a sequence of puts leaves behind.
- `go_strings.dfy` (module `GoStrings`): `strings.Split(line, ",")`.
- `go_strconv.dfy` (module `GoStrconv`): `strconv.Atoi` with Go's 64-bit
  `int`. One leading `+` or `-` is stripped and the rest is read as base-10
  digits. A non-digit gives 0 and a syntax error. A value outside the int64
  range gives the nearest int64 bound and a range error. A digit run that
  already passes 2^64 - 1 before a non-digit also gives a range error, as
  Go's digit loop does.
- `addresses.dfy` (module `Addresses`): the ip.cfg line format and the class
  `AddressTable`, whose `Load` runs the `readIPCFG` loop. Each line is split
  at commas. Field 0 is the address. Field 1 goes through Atoi, and its error
  is dropped, so the id is Atoi's value: 0 for a malformed id, unless the
  id's digits before its first non-digit already exceed 2^64 - 1, in which
  case Atoi saturates. The pair is then inserted into the map, so a later
  line with the same id overwrites an earlier one.
- `status_relay.dfy` (module `StatusRelay`): the status URI
  `http://<listIPs[4]>:8080/status`, generalised to any id. A missing id
  gives Go's zero value, the empty host.
- `options.dfy` (module `Options`): the `Option` type.

Two behaviours of the code that the model keeps:

- Malformed config lines are not skipped. A line without a comma panics at
  `inData[1]`, so `Load` requires every line to contain a comma
  (`Loadable`). A line whose id field is not a number is stored under id 0,
  as long as the id's digits before its first non-digit do not exceed
  2^64 - 1 (`MalformedIdIsZero`); otherwise it is stored under the
  saturated bound (`GoStrconv.AtoiMalformed`).
- An unknown id is not told apart from an id stored with an empty address:
  both give the URI `http://:8080/status`
  (`StatusRelay.MissingIdGivesEmptyHost`).

## Model

| member | source | states |
|---|---|---|
| `Telemetry.TelemetryStore.constructor` | main.go:15 | the store starts empty |
| `Telemetry.TelemetryStore.Put` | main.go:26-39 | on a failed bind the store is unchanged and the reply is 400 with the bind error; on a successful bind the key now holds exactly the bound record, every other key answers as before, and the reply is 200 echoing the record |
| `Telemetry.TelemetryStore.Get` | main.go:40-60 | a record is returned exactly when the key is stored, and it is the stored one |
| `Telemetry.Upsert` | main.go:31-36 | a bound record is stored under the key, replacing any earlier one; the key set grows by at most that key; other keys keep their records; a failed bind leaves the map equal to before |
| `Telemetry.PutAnswer` | main.go:31-38 | the reply code is 200 exactly when the body bound and 400 exactly when it did not, echoing the record or carrying the bind error |
| `Telemetry.Lookup` | main.go:43-58 | a record is returned exactly when the key is stored, and it is the stored one; 404 exactly when the key is absent |
| `Telemetry.ApplyPuts` | main.go:26-39 | a sequence of puts never removes a key from the store |
| `Telemetry.LookupAfterPuts` | main.go:36 | after any sequence of puts, a key holds the record of the last put that stored under it, whatever earlier puts stored and whatever later puts failed to bind |
| `Telemetry.LookupUntouched` | main.go:31-36 | a key that no put stored under answers exactly as before the sequence of puts |
| `Telemetry.NeverStoredIsNotFound` | main.go:43-58 | from an empty store, a key never successfully put is not found; no default record is returned |
| `Telemetry.RejectedPutKeepsRecord` | main.go:31-36 | a put that fails to bind after a stored record leaves that record in place |
| `GoStrings.SplitComma` | main.go:110 | the fields hold no comma, and there is more than one field exactly when the line has a comma |
| `GoStrings.JoinSplitComma` | main.go:110 | the fields of a split, joined with commas, give the line back |
| `GoStrings.SplitCommaFreePrefix` | main.go:110 | a comma-free prefix only extends the first field of what follows it |
| `GoStrings.SplitJoinComma` | main.go:110 | splitting undoes joining for comma-free fields, so split and join are inverse |
| `GoStrconv.ScanDigits` | main.go:111 | the digit loop never holds a value beyond 2^64 - 1 |
| `GoStrconv.Atoi` | main.go:111 | the value lies in the int64 range; a syntax error comes with value 0; no error only for a signed decimal |
| `GoStrconv.ScanDigitsAccepts` | main.go:111 | a digit loop that ends with a value read only digits |
| `GoStrconv.ScanDigitsOfDecimal` | main.go:111 | on digits only, the loop yields their decimal value, or a range error when it exceeds 2^64 - 1 |
| `GoStrconv.ScanDigitsStops` | main.go:111 | at the first non-digit the loop fails with a syntax error, unless the digits before it already exceed 2^64 - 1 |
| `GoStrconv.AtoiSignedDecimal` | main.go:111 | a signed decimal parses to its value when that fits in an int64, else to the nearest int64 bound with a range error |
| `GoStrconv.AtoiMalformed` | main.go:111 | a string with a non-digit after its optional sign is not a signed decimal and parses to 0 with a syntax error, unless its leading digits exceed 2^64 - 1 |
| `GoStrconv.AtoiNoDigits` | main.go:111 | an empty string or a lone sign parses to 0 with a syntax error |
| `GoStrconv.DecimalDigits` | main.go:111 | the decimal spelling of n is a non-empty digit string whose value is n |
| `GoStrconv.AtoiFormatInt` | main.go:111 | Atoi reads back every int64 written in decimal, with no error |
| `Addresses.LineId` | main.go:111 | a line's id lies in the int64 range |
| `Addresses.LineAddress` | main.go:110-112 | a line's address is exactly the comma-free text before its first comma |
| `Addresses.LineOfFields` | main.go:110-112 | a line of two or more comma-free fields stores field 0 under Atoi of field 1; later fields play no part |
| `Addresses.LineOfFormattedId` | main.go:110-112 | the line `address,id` for a comma-free address and an int64 id loads exactly that id and address |
| `Addresses.MalformedIdIsZero` | main.go:111-112 | a line whose id field is empty, a lone sign, or has a non-digit (such as ` 4` or `abc`), and whose digits before that non-digit do not exceed 2^64 - 1, stores its address under id 0 |
| `Addresses.EntriesAppend` | main.go:109-112 | the pairs of two blocks of lines read one after the other are the pairs of the first block followed by those of the second, so reading one more line only appends that line's pair |
| `Addresses.InsertAll` | main.go:112 | inserting pairs never removes an id, and the last pair's id holds the last pair's address |
| `Addresses.LoadLines` | main.go:109-113 | loading never removes an id, and no lines leave the table as it was (which address the last line with an id leaves is stated by LoadLinesLastWins) |
| `Addresses.InsertAllKeys` | main.go:112 | after the insertions the map holds exactly the ids it held before and the ids of the pairs |
| `Addresses.InsertAllLastWins` | main.go:112 | the last pair with an id decides the address stored under it |
| `Addresses.InsertAllKeeps` | main.go:112 | an id no pair carries keeps its earlier entry, or stays absent |
| `Addresses.LoadLinesKeys` | main.go:109-113 | the loaded table holds exactly the earlier ids and the ids of the lines |
| `Addresses.LoadLinesLastWins` | main.go:109-113 | the address of the last line with a given id is the one stored under it |
| `Addresses.LoadLinesKeeps` | main.go:109-113 | an id that no line carries keeps what the table held for it before |
| `Addresses.DuplicateIdLaterWins` | main.go:109-113 | of two lines with the same id, such as `10.0.0.5,4` then `10.0.0.9,4`, the second address is the one resolved |
| `Addresses.Resolve` | main.go:16 | an address is returned exactly when the id is in the table, and it is the stored one |
| `Addresses.AddressTable.constructor` | main.go:16 | the table starts empty |
| `Addresses.AddressTable.Load` | main.go:101-114 | the table after the loop is the table before with every line's pair inserted in order |
| `StatusRelay.HostOf` | main.go:83 | the host is the stored address, or Go's zero value, the empty string, for a missing id |
| `StatusRelay.StatusUri` | main.go:83 | the URI is total, and parsing it back as `http://<host>:8080/status` yields exactly the host for the id |
| `StatusRelay.RelayUri` | main.go:83 | the URI the status handler requests parses back to the address of device 4, or the empty host when device 4 is missing |
| `StatusRelay.ParseStatusUriExact` | main.go:83 | a string accepted as a status URI is `http://` + host + `:8080/status` for the host returned |
| `StatusRelay.StatusUriDeterminesHost` | main.go:83 | two tables give the same status URI for an id exactly when they give the same host for it |
| `StatusRelay.MissingIdGivesEmptyHost` | main.go:83 | a missing id gives `http://:8080/status`, the same URI as an id stored with an empty address |
| `StatusRelay.RelayUriAfterLoad` | main.go:83 | when the last config line for device 4 is `address,4`, whatever lines for other ids follow it, the relay asks `http://address:8080/status` |

## Left out

- HTTP routing and the response writes of the gin framework (main.go:27, 37-38, 44-58, 116-128). `Put` and `Get` return the reply as a value. The second `c.JSON` call at main.go:38 is not modelled.
- JSON binding (`ShouldBindJSON`) is a library call. It is an input here: a bound record or a bind failure with its message.
- The fields of the telemetry record (coordinates, temperature, rotations, status) are floating point values of the `TelemetryData` type, which is defined outside main.go. The record is an opaque type parameter, and no field is inspected.
- The outbound `http.Get` of the status relay, the decoding of its JSON body, and the nil response dereference on a transport error (main.go:88-97) are network I/O. Only the URI is modelled.
- Opening and scanning `ip.cfg` (main.go:102-108) is file I/O. `Load` takes the lines as a sequence. A file that cannot be opened gives no lines, hence an empty table. Lines longer than the scanner's buffer are not modelled.
- `Atoi`'s fast path for strings shorter than 19 bytes is not modelled separately; it gives the same results as the general path modelled here.
- Go strings are bytes; the model uses Dafny characters. Commas and ASCII digits are single bytes in UTF-8, so splitting and parsing agree.
- Static file serving (`serveFiles`, `serveScripts`, `serveCSS`, main.go:62-80) is filesystem I/O.
- Concurrent access to the two unsynchronised global maps is not modelled; the model is sequential.
- The unused `Request` type (main.go:19-24).
