# FRITZ!Box login and DECT 210 polling, in Dafny

This project models the session login of a FRITZ!Box gateway, following AVM's
reference login script of 2020-09-25, and the loop that polls a FRITZ!DECT 210
smart plug and stores its readings. Both copies of the login code map onto one
set of definitions: the methods of `DectToPostgres` in `src/dect/data.py`, and
the module-level functions in `data.py`.

- **Challenge-response codec** (`codec.dfy`).
  - `LoginState` and the `2$` test choose between the schemes.
  - The PBKDF2 response is two PBKDF2-HMAC-SHA256 rounds, section 5.2 of RFC 8018.
  - The legacy response is MD5 (RFC 1321) of the UTF-16LE text.
  - Both responses are assembled as strings.
  - The hash primitives are a `HashSuite` parameter. The only thing known about them is the length of their digests.
- **The Python library behaviour the codec relies on**, written out:
  - `str.split`, `str.strip` and `int()` (`pystr.dfy`);
  - `bytes.fromhex` and `bytes.hex()` (Base16, section 8 of RFC 4648; `hex.dfy`);
  - UTF-8 (section 3 of RFC 3629) and UTF-16LE (sections 2.1 and 3.1 of RFC 2781), each with its decoder and a round-trip proof (`unicode.dfy`);
  - `urllib.parse.quote_plus` and `urlencode` (sections 2.1 and 2.3 of RFC 3986), with the decoder that inverts them;
  - `dict.update` on an ordered parameter dictionary;
  - the way `requests` drops parameters whose value is `None` (`urlencode.dfy`).
- **Login flow** (`session.dfy`).
  - `get_login_state`, `send_response`, `get_sid`, `validate_sid` and the parameters of `retrieve_data` are pure functions of the gateway's replies.
  - The replies are the parsed XML fields, or the class of the exception raised.
  - Each function returns an outcome and a trace of effects (`trace.dfy`).
- **One polling iteration and the loop** (`poll.dfy`, facts in `poll_facts.dfy`).
  - An iteration runs the session check, the three reads, showing and storing, then the two `except` clauses.
  - `run`'s `while True` is a function over a script of cycles. Each cycle is the replies of one iteration, or a `KeyboardInterrupt`.
- **The object** (`runner.dfy`).
  - Class `Poller` has the fields `run` overwrites: `sid`, `dataId`, the two flags and the constant `BACKOFF_INTERVAL = 30`.
  - It also holds the trace of effects.
  - Each method is proved to leave exactly the state the functions of `Polling` describe.

Where the source and its description disagree, the model follows the code:

- A plug reply of `inval` is not skipped. `int("inval")` raises `ValueError`, which reaches the generic `except` and exits with status 1 (`src/dect/data.py:161-167, 186-188`).
- The 30-second pause happens only when `to_postgresql` is set (`src/dect/data.py:177-180`). With the default `False` (line 38), iterations run back to back.
- `validate_sid` returns the `requests` response itself (`src/dect/data.py:71`). Its truth value is "status below 400 or at least 600" (`response.ok`). It does not check the session id.

The code has defects that are read by evident intent:

- Neither file parses as written. In `src/dect/data.py` the docstring at line 67 is mis-indented, and so are the `while` at line 151 and the handler at 190-191. In `data.py`, line 149 reads `os getenv` for `os.getenv`.
- `self.sid` is read before it is ever assigned (`src/dect/data.py:153`). It is modelled as starting at `None`, which skips the probe and logs in.
- Unqualified names resolve to the object: `get_sid` at line 154, `sid` at 156 and 161-167, `retrieve_data` at 161, 164 and 167, `print_console` at 170 and `to_postgresql` at 177. The file defines `retrieve_data` only as a method (line 128).
- `src/dect/data.py` never imports `logging` (its imports are lines 8-15), yet `run` calls it at 145, 155-156, 179, 183, 185, 187 and 191. Read literally, `run` would stop with a `NameError` at line 145, and the `ConnectionError` handler would itself raise at 183. The model reads `logging` as imported, as `src/dect/__main__.py` does, and leaves the log calls out. So a `ConnectionError` is survived with a 10-second pause.
- The unqualified `sleep` at lines 180 and 184 is `time.sleep`. The module imports `time` at line 10, and the object has no `sleep`.
- `power, energy, temperature` at line 178 is the reading just taken.

## Model

The rows cite `src/dect/data.py`. The module-level copy in `data.py` is the same code, and the same members model it:

- `LoginState` (lines 20-24): `ChallengeCodec.IsPbkdf2Iff`.
- `get_sid` (26-50): `Session.GetSid`, `Session.GetSidOutcome`, `Session.GetSidFailures`, `Session.GetSidSequence`.
- `get_login_state` (52-60): `Session.GetLoginState`, `Session.GetLoginStateBlockTime`.
- `calculate_pbkdf2_response` (63-75): `ChallengeCodec.Pbkdf2Response` and the lemmas about it.
- `calculate_md5_response` (77-85): `ChallengeCodec.Md5Response`.
- `send_response` (87-100): `Session.SendResponseBody`.

| member | source | states |
|---|---|---|
| ChallengeCodec.IsPbkdf2Iff | src/dect/data.py:20-24 | `is_pbkdf2` holds exactly when the challenge's first two characters are `2` and `$`; the first `$`-field of such a challenge is then `"2"` |
| ChallengeCodec.Field | src/dect/data.py:88-93 | indexing the split challenge succeeds exactly for an index below the number of fields, giving that field; otherwise `IndexError` |
| ChallengeCodec.IntField | src/dect/data.py:88-92 | `int(parts[i])` succeeds exactly when field `i` exists and is a Python integer, and gives that integer; a missing field raises `IndexError`, an unparsable one `ValueError` |
| ChallengeCodec.HexField | src/dect/data.py:88-93 | `bytes.fromhex(parts[i])` succeeds exactly when field `i` exists and is hex text, and gives those bytes; a missing field raises `IndexError`, bad hex `ValueError` |
| ChallengeCodec.Pbkdf2 | src/dect/data.py:95-97 | `pbkdf2_hmac` succeeds exactly when password and salt are each at most INT_MAX bytes and the iteration count is from 1 to INT_MAX, giving the primitive's digest; it raises `ValueError` for a count from -2^63 to 0 with both buffers in bounds, and `OverflowError` for a count that does not fit a C `long`, a password or salt longer than INT_MAX bytes, or a count above INT_MAX |
| ChallengeCodec.Pbkdf2Response | src/dect/data.py:86-98 | only `IndexError`, `ValueError` or `OverflowError` can be raised; on success the challenge has at least five `$`-fields and the answer is field 4 verbatim, then `$`, then 64 lower-case hex digits |
| ChallengeCodec.Pbkdf2FewFieldsFails | src/dect/data.py:88-93 | a challenge with fewer than five `$`-fields always raises |
| ChallengeCodec.ShowNatHasNoDollar | src/dect/data.py:90 | a decimal iteration count never contains `$`, so it stays one field |
| ChallengeCodec.HexHasNoDollar | src/dect/data.py:91 | a hex salt never contains `$`, so it stays one field |
| ChallengeCodec.Pbkdf2ResponseOfFields | src/dect/data.py:88-98 | when fields 1 to 4 parse to counts from 1 to INT_MAX and salts of at most INT_MAX bytes, and the password's UTF-8 form is at most INT_MAX bytes, the response is `parts[4]` + `$` + hex(PBKDF2(PBKDF2(utf8(password), salt1, iter1), salt2, iter2)); later fields are ignored |
| ChallengeCodec.Pbkdf2ResponseCases | src/dect/data.py:86-98 | the response raises the first error in source order: field 1, 2, 3, 4 missing or unparsable, then round 1 and round 2 in order, each raising `OverflowError` for a count below -2^63 or a password or salt over INT_MAX bytes, `ValueError` for a count from -2^63 to 0, `OverflowError` for a count above INT_MAX; it succeeds exactly when all four fields parse, the UTF-8 password and both salts are at most INT_MAX bytes and both counts are in 1..INT_MAX, and is then `parts[4]` + `$` + hex of the second round keyed by the first round's digest |
| ChallengeCodec.IntFieldShow | src/dect/data.py:90 | `int()` reads back a field written in decimal |
| ChallengeCodec.HexFieldShow | src/dect/data.py:91 | `bytes.fromhex` reads back a field written in hex |
| ChallengeCodec.GatewaySplit | src/dect/data.py:88 | a challenge `2$iter1$salt1$iter2$salt2[$extra...]` splits into exactly those fields |
| ChallengeCodec.GatewayChallengeFields | src/dect/data.py:88-93 | in such a challenge, fields 1 to 4 read back as the two counts and the two salts |
| ChallengeCodec.Pbkdf2ResponseOfChallenge | src/dect/data.py:86-98 | for every challenge of that form whose salts and UTF-8 password are at most INT_MAX bytes, the response is hex(salt2) + `$` + hex of the chained PBKDF2 rounds |
| ChallengeCodec.Pbkdf2ResponseDigest | src/dect/data.py:98 | for such a challenge, the response is `2·\|salt2\| + 65` characters long, and its text after the `$` decodes to exactly the second digest |
| ChallengeCodec.Md5Input | src/dect/data.py:103-105 | the MD5 input, the UTF-16LE bytes of `challenge-password`, has two to four bytes per character |
| ChallengeCodec.Md5Response | src/dect/data.py:101-109 | the MD5 response is `challenge + "-"` followed by exactly 32 lower-case hex digits |
| ChallengeCodec.Md5ResponseDigest | src/dect/data.py:103-108 | the hex after `challenge-` decodes to the MD5 of the UTF-16LE bytes of `challenge-password` |
| ChallengeCodec.Md5InputInjective | src/dect/data.py:103-105 | different passwords give different MD5 inputs, non-BMP characters included |
| ChallengeCodec.ChallengeResponse | src/dect/data.py:49-54 | a `2$` challenge gets the PBKDF2 response (errors included); any other challenge gets the MD5 response |
| ChallengeCodec.ChallengeResponseErrors | src/dect/data.py:49-54 | computing a response can raise only `IndexError`, `ValueError` or `OverflowError` |
| PyStr.Split | src/dect/data.py:88 | `str.split` gives at least one field, and no field contains the separator |
| PyStr.JoinSplit | src/dect/data.py:88 | joining the fields with the separator gives back the challenge |
| PyStr.SplitCount | src/dect/data.py:88 | there is one more field than there are separators; empty fields are kept |
| PyStr.SplitFieldThenSep | src/dect/data.py:88 | a separator-free prefix followed by the separator is the first field |
| PyStr.SplitNoSep | src/dect/data.py:88 | text without the separator is a single field |
| PyStr.SplitJoin | src/dect/data.py:88 | splitting separator-free fields joined by the separator gives them back |
| PyStr.DigitValue | src/dect/data.py:90 | a decimal digit has a value below 10 |
| PyStr.DigitChar | src/dect/data.py:90 | each value below 10 has a digit that reads back as that value |
| PyStr.StripLeftSpec | src/dect/data.py:82 | the leading white space `int()` skips is removed, and only that; the rest is a suffix that starts with a character `int()` does not skip |
| PyStr.StripRightSpec | src/dect/data.py:82 | trailing white space is removed; the rest is a prefix that ends with a non-space |
| PyStr.Strip | src/dect/data.py:82 | the stripping `int()` applies (ASCII tab to carriage return, space, and non-ASCII Unicode white space, but not U+001C to U+001F): the result is no longer than the text and neither starts nor ends with such white space |
| PyStr.ParseDigits | src/dect/data.py:90 | a digit string is accepted only when it starts and ends with a digit, so an underscore can stand only between digits |
| PyStr.ParseInt | src/dect/data.py:161-167 | `int(text)` accepts a text only if, stripped, it is non-empty, ends in a digit and starts with a digit or a sign; a negative result needs a leading `-` |
| PyStr.ShowNat | src/dect/data.py:90 | a decimal numeral is non-empty and all digits |
| PyStr.ParseShowNat | src/dect/data.py:90 | `int()`'s digit reader reads a decimal numeral back as its value |
| PyStr.StripAround | src/dect/data.py:82 | stripping white space around a core that neither starts nor ends in a space gives the core |
| PyStr.ParseStripped | src/dect/data.py:161-167 | `int()` of a text that is a decimal integer once stripped is that integer |
| PyStr.ParseShowInt | src/dect/data.py:82 | `int()` reads any integer written in decimal back, with white space on either side |
| PyStr.TabIsSpace | src/dect/data.py:82 | `int("\t5")` is 5: a tab before the digits is skipped |
| PyStr.SeparatorIsNotSpace | src/dect/data.py:82 | `int("\x1c5")` raises `ValueError`: U+001C is not skipped, although `str.isspace()` accepts it |
| Hex.HexValue | src/dect/data.py:91 | a hex digit, either case, has a value below 16 |
| Hex.LowerHexChar | src/dect/data.py:98 | `hex()` writes each nibble as a lower-case digit that reads back as its value |
| Hex.ToHex | src/dect/data.py:98 | `bytes.hex()` writes two lower-case hex digits per byte |
| Hex.FromHex | src/dect/data.py:91 | `bytes.fromhex` gives at most one byte per two characters of text |
| Hex.FromHexToHex | src/dect/data.py:91-98 | `bytes.fromhex` inverts `bytes.hex()` |
| Hex.FromHexLength | src/dect/data.py:91 | a successful decode of pure hex text has an even length and gives half as many bytes |
| Unicode.CharIsScalar | src/dect/data.py:95 | each character of a Dafny string is a Unicode scalar value, so `.encode()` cannot fail |
| Unicode.ToChar | src/dect/data.py:95 | each scalar value is a character |
| Unicode.Utf8Char | src/dect/data.py:95 | UTF-8 writes one to four bytes per character |
| Unicode.Utf8Encode | src/dect/data.py:95 | the UTF-8 encoding of the password has between one and four bytes per character |
| Unicode.Utf8DecodeChar | src/dect/data.py:95 | a UTF-8 decode step consumes between one byte and the whole input |
| Unicode.Utf8CharRoundTrip | src/dect/data.py:95 | decoding the bytes of one character, whatever follows, gives back the character and its byte count |
| Unicode.Utf8RoundTrip | src/dect/data.py:95 | UTF-8 decoding inverts `password.encode()` |
| Unicode.Utf8Ascii | src/dect/data.py:95 | an ASCII password encodes to its own code points, one byte each |
| Unicode.Unit | src/dect/data.py:105 | a UTF-16 code unit is two bytes |
| Unicode.Utf16LeChar | src/dect/data.py:105 | UTF-16LE writes two bytes per BMP character and four per surrogate pair |
| Unicode.Utf16LeEncode | src/dect/data.py:105 | the UTF-16LE encoding has two to four bytes per character and no byte-order mark |
| Unicode.Utf16LeDecodeChar | src/dect/data.py:105 | a UTF-16LE decode step consumes between one byte and the whole input |
| Unicode.Utf16LeCharRoundTrip | src/dect/data.py:105 | decoding one character's bytes, whatever follows, gives back the character and its byte count |
| Unicode.Utf16LeRoundTrip | src/dect/data.py:105 | UTF-16LE decoding inverts `encode("utf_16_le")` |
| Unicode.Utf16LeInjective | src/dect/data.py:105 | distinct texts have distinct UTF-16LE encodings |
| Unicode.Utf16LeBmp | src/dect/data.py:105 | a BMP text encodes to two bytes per character, low byte first |
| UrlEncode.UpperHexChar | src/dect/data.py:117 | percent escapes use upper-case hex digits that read back as the nibble |
| UrlEncode.QuotePlus | src/dect/data.py:117 | `quote_plus` writes a value with neither `&` nor `=`, and form decoding gives back the UTF-8 bytes of the value |
| UrlEncode.FormFields | src/dect/data.py:117 | `urlencode` writes one field per pair, in order, and field `i` is `quote_plus(key_i)=quote_plus(value_i)` |
| UrlEncode.FormEncode | src/dect/data.py:117 | splitting a body of at least one pair on `&` gives back exactly its fields, in order |
| UrlEncode.UnquoteQuoteBytes | src/dect/data.py:117 | form decoding inverts `quote_plus` on any bytes |
| UrlEncode.QuotePlusUnreserved | src/dect/data.py:117 | text of unreserved characters is written as it is |
| UrlEncode.QuotedHasNoDelimiters | src/dect/data.py:117 | a quoted value contains neither `&` nor `=` |
| UrlEncode.FormEncodeTwoFields | src/dect/data.py:116-117 | a two-pair body splits on `&` into exactly its two fields, in order |
| UrlEncode.Lookup | src/dect/data.py:134-136 | a parameter dictionary has a value for a key exactly when the key is present |
| UrlEncode.Put | src/dect/data.py:136 | setting a key adds it, gives it the new value, leaves every other key's value alone and keeps the existing key order |
| UrlEncode.PutNew | src/dect/data.py:136 | setting a key not yet present appends it last |
| UrlEncode.Update | src/dect/data.py:136 | `dict.update` keeps every key of the dictionary in its place and adds at most one entry per keyword |
| UrlEncode.UpdateKeys | src/dect/data.py:136 | `dict.update` gives the union of the keys and keeps the old keys first, in order |
| UrlEncode.UpdateLookup | src/dect/data.py:136 | after `dict.update` a key has the new value if the update holds it, and its old value otherwise |
| UrlEncode.UpdateNew | src/dect/data.py:134-136 | updating by distinct keys that are all new appends the keyword pairs after the old entries, in the order given |
| UrlEncode.KeysAt | src/dect/data.py:134-136 | a key that no entry holds is not among the keys |
| UrlEncode.DropNone | src/dect/data.py:138 | `requests` sends exactly the parameters whose value is not `None` |
| Session.GetLoginState | src/dect/data.py:75-83 | a login state comes only from an XML reply, and its challenge is the text of `Challenge` |
| Session.GetLoginStateBlockTime | data.py:52-60 | the block time is the decimal integer in `BlockTime`, white space around it allowed |
| Session.SendResponseBody | src/dect/data.py:112-117 | the posted body splits on `&` into exactly `username=` + the quoted user name and `response=` + the quoted response, in that order |
| Session.FieldNamesQuoted | src/dect/data.py:116-117 | the field names `username` and `response` are written unquoted |
| Session.NamedFieldsWritten | src/dect/data.py:116-117 | a two-field body with names that quote as themselves splits into `name=quoted value`, in order |
| Session.GetSid | src/dect/data.py:42-64 | `get_sid` always starts by fetching the login page |
| Session.GetSidOutcome | src/dect/data.py:42-64 | `get_sid` succeeds exactly when the state parses, a response can be computed and the gateway answers with anything but the all-zero id; that answer is returned unchanged, so the sentinel is never returned |
| Session.GetSidFailures | src/dect/data.py:45-63 | a failed fetch becomes "failed to get challenge" and nothing is posted; a codec error passes through; a failed post becomes "failed to login"; the sentinel raises "wrong username or password" |
| Session.GetSidNeverConnectionError | src/dect/data.py:45-61 | no failure of `get_sid` is a built-in `ConnectionError` |
| Session.GetSidOnlyTransport | src/dect/data.py:42-64 | `get_sid` only makes requests and waits: it neither stores nor exits |
| Session.PostAfterWait | src/dect/data.py:46-59 | `get_sid` fetches first and posts last; when `blocktime > 0` there is one effect between them, the wait of `blocktime` seconds, and otherwise none |
| Session.PostAfterWaitShape | src/dect/data.py:55-59 | the post comes last and is the only post; the only wait lasts `blocktime` seconds and is present exactly when `blocktime > 0` |
| Session.GetSidSequence | src/dect/data.py:49-59 | once the state is read, the chosen response is computed, then there is a wait exactly when `blocktime > 0`, then the response is posted last to the login route |
| Session.GetSidEffects | src/dect/data.py:45-59 | once the state is read and a response computed, `get_sid` makes exactly the fetch, the wait when `blocktime > 0`, and the post of the form body |
| Session.ProbeRequest | src/dect/data.py:66-70 | the probe is a GET of the login route whose only parameter is the session id, and it has no parameter when the id is `None` |
| Session.ProbeValid | src/dect/data.py:66-71 | the probe fails exactly when the transport raised; otherwise its truth value is "status not in 400..599" |
| Session.FixedParams | src/dect/data.py:134 | the dictionary literal has exactly the keys `ain`, `switchcmd`, `sid`, each with the value passed |
| Session.RetrieveParams | src/dect/data.py:134-136 | the dictionary has the three fixed entries and one more per keyword |
| Session.RetrieveParamsOrder | src/dect/data.py:134-136 | the keyword pairs follow the three fixed entries, in the order given |
| Session.RetrieveParamsSpec | src/dect/data.py:128-136 | for keyword arguments Python can bind (distinct names, none of them a parameter of `retrieve_data`), the dictionary is `ain`, `switchcmd`, `sid` with the values passed, followed by the keywords in their order; a key holds the keyword's value if one was given and the fixed value otherwise, and no other key is present |
| Session.RetrieveRequest | src/dect/data.py:128-140 | `retrieve_data` GETs the automation route; the command is always sent, and `sid` and `ain` are sent exactly when they are not `None`, with the values passed |
| Polling.ReadRequest | src/dect/data.py:137-138 | each reading is requested from the automation route of the configured gateway |
| Polling.ReadRequestIsRetrieve | src/dect/data.py:161-167 | a read is exactly `retrieve_data(url, sid, cmd, ain=ain)` with no extra keywords |
| Polling.ReadValue | src/dect/data.py:161-167 | a read succeeds exactly when the reply text is a Python integer, giving that integer; unparsable text raises `ValueError`; a transport failure raises its own class |
| Polling.Convert | src/dect/data.py:161-167 | power is milliwatts / 1000, energy is watt-hours unchanged, temperature is tenths / 10 |
| Polling.SessionStageCases | src/dect/data.py:153-154 | no session: log in; probe raised: the iteration raises; probe valid: keep the session; probe invalid: log in after the probe |
| Polling.LoginStage | src/dect/data.py:154 | a login sets only the session id; the row id is kept |
| Polling.SessionStage | src/dect/data.py:153-154 | the session part never changes the row id |
| Polling.ReadStage | src/dect/data.py:160-167 | the requests made are a prefix of power, energy, temperature, at least the first; a reading comes out exactly when all three replies are integers, and then all three requests were made |
| Polling.ReadStageCases | src/dect/data.py:160-167 | the reads stop at the first reply that fails, with its error, after the requests made so far |
| Polling.PersistStage | src/dect/data.py:170-180 | the reading is inserted exactly when `to_postgresql` is set; the row id changes only then, and only to the insert's reply |
| Polling.MeasureStage | src/dect/data.py:160-180 | the reads and the storing keep the session id, and raise exactly when a read fails, then keeping the row id |
| Polling.MeasureStageCases | src/dect/data.py:160-180 | a failed read raises its error after the requests made; three good reads are followed by showing and storing, and nothing is raised |
| Polling.TryBody | src/dect/data.py:152-180 | the `try` body's session id is the session part's, and its effects start with the session part's |
| Polling.TryBodyStages | src/dect/data.py:152-180 | the `try` body is the session part, then the reads, then showing and storing, each stopping the iteration when it raises |
| Polling.Except | src/dect/data.py:182-188 | the `except` clauses keep the session and row ids, exit exactly when the body raised something other than `ConnectionError`, and add at most one effect after the body's |
| Polling.IterateWith | src/dect/data.py:152-188 | an iteration that exits ends with `sys.exit(1)` |
| Polling.Iterate | src/dect/data.py:152-188 | in the real iteration, with `get_sid`, only the session part sets the session id, and an iteration that exits ends with `sys.exit(1)` |
| Polling.RunSpec | src/dect/data.py:151-191 | the loop ends in an exit only with status 1, and runs out of cycles only when no cycle is a `KeyboardInterrupt` |
| Polling.RunSpecAt | src/dect/data.py:151-188 | at any cycle, the loop runs one iteration, stops there if it exited, and otherwise goes on from its state |
| PollingFacts.SessionStageKinds | src/dect/data.py:153-154 | the session part only makes requests and waits, given a login that does |
| PollingFacts.ReadStageKinds | src/dect/data.py:160-167 | the reads only make requests |
| PollingFacts.PersistStageKinds | src/dect/data.py:170-180 | showing and storing only print, insert and wait; an insert happens exactly when `to_postgresql` is set and is then followed by the `BACKOFF_INTERVAL` pause, and the row id becomes the insert's reply, `None` after a database failure; without storing the row id is kept and there is no pause |
| PollingFacts.TryBodyKinds | src/dect/data.py:152-180 | the `try` body adds only requests, output, inserts and waits; it inserts only when storing is enabled and the session and reads succeeded; the row id changes only to the insert's reply; it raises only in the session part or a read, never in storing |
| PollingFacts.ExceptPolicy | src/dect/data.py:182-188 | the process exits with status 1 exactly for an exception other than `ConnectionError`; a `ConnectionError` adds a 10 s pause; the state of the `try` body is kept |
| PollingFacts.IterationExtendsSession | src/dect/data.py:152-188 | an iteration's effects start with those of the session part, and only the session part sets the session id |
| PollingFacts.IterationThroughSession | src/dect/data.py:152-188 | the outcome of `get_sid` matters to an iteration only through the session part |
| PollingFacts.SessionReuse | src/dect/data.py:153-154 | a stored session that the probe accepts is kept: the iteration starts with the probe, never logs in or posts, and does not depend on `get_sid` |
| PollingFacts.ReusedSession | src/dect/data.py:153-180 | with a session the probe accepts, the iteration starts with the probe, keeps the session and never posts |
| PollingFacts.LoginWhenNeeded | src/dect/data.py:153-156 | with no session, or one the probe rejects, the iteration logs in right after the probe and stores the new session id; a failed login ends the iteration at once |
| PollingFacts.LoginFailureExits | src/dect/data.py:153-188 | a failed login always exits with status 1, because `get_sid` rewraps network failures as plain exceptions |
| PollingFacts.ReadsOfNumbers | src/dect/data.py:160-167 | integer replies, white space around them allowed, give a reading of W = mW/1000, Wh unchanged and °C = tenths/10; there is one request each for power, energy and temperature, in that order |
| PollingFacts.MeasureOfReadings | src/dect/data.py:160-180 | three successful reads give their three requests in order, then the reading is shown if `print_console`, inserted and followed by the 30 s pause if `to_postgresql`, with the insert's reply (possibly `None`) as the row id; nothing is raised |
| PollingFacts.InvalIsNotAnInteger | src/dect/data.py:160-167 | `int("inval")`, the plug's answer for an unknown value, raises |
| PollingFacts.NotAnIntegerWithLetter | src/dect/data.py:161-167 | no text holding a lower- or upper-case ASCII letter is a Python integer |
| PollingFacts.NotAnIntegerWithForeign | src/dect/data.py:161-167 | no text holding a character other than white space, a digit, `_`, `-` or `+` is a Python integer |
| PollingFacts.DigitsOnly | src/dect/data.py:161 | a digit string with a character other than a digit or `_` is rejected |
| PollingFacts.UnparsableReadExits | src/dect/data.py:161-188 | a reply that is not an integer ends the process with status 1, nothing is stored and the row id is kept |
| PollingFacts.FullIteration | src/dect/data.py:152-180 | an iteration that gets through the session and all three reads makes its requests, shows the reading if `print_console`, inserts it and pauses if `to_postgresql` (taking the insert's reply as the row id), and never exits |
| PollingFacts.InsertOnlyWhenStoring | src/dect/data.py:170-180 | an insert happens only with `to_postgresql` set and the session and all reads successful; the row id changes only to the insert's reply; an insert, failed or not, never exits: the iteration ends with it and the 30 s pause, and its reply is the row id |
| PollingFacts.StoredIteration | src/dect/data.py:170-180 | when storing is enabled and the session and reads succeed, the iteration does not exit, takes the insert's reply as the row id and ends with the insert and the pause |
| PollingFacts.ErrorPolicy | src/dect/data.py:182-188 | an iteration exits exactly when it raised something other than `ConnectionError`, and then the exit is its only and last effect; a `ConnectionError` pauses 10 s and keeps the state |
| PollingFacts.TryBodyNoExit | src/dect/data.py:152-180 | the `try` body itself never exits, given a `get_sid` that only makes requests and waits |
| PollingFacts.ReadConnectionErrorKeepsSession | src/dect/data.py:161-185 | a `ConnectionError` while reading power keeps the session and gives exactly the probe, the power request and the 10 s pause |
| PollingFacts.IterationExitsLast | src/dect/data.py:152-188 | in the real iteration, with `get_sid`, an exit is the last and only exit effect |
| PollingFacts.IterationsExitLast | src/dect/data.py:151-188 | every iteration of `run` exits only last |
| PollingFacts.IterationsNeverStore | src/dect/data.py:177-180 | with `to_postgresql` unset, no iteration stores or changes the row id |
| PollingFacts.RunExitsLast | src/dect/data.py:151-188 | the loop ends in `sys.exit(1)` exactly when an exit occurs, and that exit is its last effect and the only one |
| PollingFacts.ExitShapeAppend | src/dect/data.py:151-188 | effects without an exit, in front of a trace whose exit comes only last, keep that shape |
| PollingFacts.RunWithoutStoring | src/dect/data.py:151-180 | a loop whose iterations store nothing stores nothing and keeps the row id |
| PollingFacts.RunOfIterations | src/dect/data.py:143-191 | `run` exits only at the end of its trace, and with `to_postgresql` unset it never stores |
| Trace.KindsOccur | src/dect/data.py:151-188 | an effect kind is in a trace exactly when some effect of the trace has it |
| Trace.KindsAppend | src/dect/data.py:151-188 | the kinds of two traces in a row are the union of their kinds |
| Trace.SleepTotalAppend | src/dect/data.py:55-57 | the wait times of two traces in a row add up |
| Runner.Poller.constructor | src/dect/data.py:28-39 | a new object has no session and no stored row, prints readings and does not store them |
| Runner.Poller.Read | src/dect/data.py:161-167 | one read appends its request to the trace and returns the parsed reply, changing no field |
| Runner.Poller.Probe | src/dect/data.py:153 | the probe appends its request and reports the failure or whether a login is needed |
| Runner.Poller.LogIn | src/dect/data.py:154 | `self.sid = get_sid(...)`: the new session id on success, nothing changed on failure |
| Runner.Poller.EnsureSession | src/dect/data.py:153-156 | the session part updates `sid` and the trace exactly as `SessionStage` says |
| Runner.Poller.ReadAll | src/dect/data.py:160-167 | the three reads update the trace and give the reading exactly as `ReadStage` says |
| Runner.Poller.Persist | src/dect/data.py:170-180 | showing and storing update `dataId` and the trace exactly as `PersistStage` says (the row id becomes the insert's reply, `None` after a database failure), and change no other field |
| Runner.Poller.Measure | src/dect/data.py:160-180 | the reads, then showing and storing, update `dataId` and the trace exactly as `MeasureStage` says |
| Runner.Poller.TryIteration | src/dect/data.py:152-180 | the `try` body leaves exactly the state and trace of `TryBody` |
| Runner.Poller.Step | src/dect/data.py:152-188 | one iteration, with its `except` clauses, leaves exactly the state, trace and exit of the iteration function |
| Runner.Poller.Loop | src/dect/data.py:151-191 | the `while True` loop over the scripted cycles leaves exactly the state and trace of `RunSpec` and ends as it says; the two flags are unchanged |
| Runner.Poller.Run | src/dect/data.py:143-191 | `run` with `get_sid` and the real iterations agrees with `RunSpec` of `Iterate`; the two flags are unchanged |

## Left out

- The hash primitives MD5, PBKDF2-HMAC-SHA256, HMAC and SHA-256 are library code. They are parameters whose only known property is the digest length.
- HTTP transport (`urlopen`, `requests.get`) and XML parsing (`ElementTree`) are left out. Their results are inputs: the text of the XML elements, the HTTP status, the reply text, or the class of the raised exception.
- `time.sleep` and `sys.exit` are effects in the trace. Nothing waits or exits.
- The query string `requests` builds from the parameters is left out. A request carries its parameter list.
- The PostgreSQL client (`src/dect/postgresql_tasks.py`) is not part of this model. `insert_dect_210` catches every database error and then returns `None`, so an insert is a trace effect that never raises, and its reply is the new row id or `None`.
- The configuration reader (`src/dect/config.py`) is not part of this model. `run` gets the four configuration values as a `Config` value.
- `main`, `main_env`, `src/dect/__main__.py` and `main.py` are left out. They are argv and environment wiring, logging setup and printing.
- Logging and the text printed to the console are left out. Showing a reading is one `Show` effect.
- `retrieve_data` in `data.py` is left out. Its dictionary keys are the argument values, and it parses plain text as XML and returns nothing, so there is no behaviour to specify.
- Floating point is left out. Power and temperature are exact `real` quotients.
- A `KeyboardInterrupt` is a script input seen only between iterations, never inside one.
- The loop is bounded by its script of cycles. A script that runs out ends as `ScriptExhausted`, where the program would go on polling.
- `int()` is modelled for ASCII digits with single underscores between digits, and it skips white space at both ends. That white space is the ASCII characters tab to carriage return and space, plus the non-ASCII characters `str.isspace()` accepts. Non-ASCII decimal digits and the 4300-digit limit are left out.
- Lone surrogates cannot be represented in a Dafny string. The `UnicodeEncodeError` that `.encode()` raises for them is therefore not modelled.
- Every exception that `requests` or `urllib` raises is recorded by its class. `requests`' own `ConnectionError` is not a subclass of the built-in `ConnectionError` that `run` catches. The model treats only the built-in class as caught.
- Runner.Poller.LogIn: takes the outcome of `get_sid` as a function of the iteration's replies, so the method does not compute it itself; `Run` passes `get_sid` in.
- Runner.Poller.Step: follows the iteration function `step` it is given, and `Run` passes the real iteration.
