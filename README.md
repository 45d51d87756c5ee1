# GFC1602AI character LCD driver

This project is a Dafny model of `GFC1602AI`, a write-only, bit-banged driver
for an HD44780-family 16x2 character LCD wired in 8-bit parallel mode. The
driver owns eleven output lines:

- `rs`, register select: low picks the instruction register, high the data register;
- `rw`, read/write: the driver only ever writes;
- `e`, enable;
- `db7`..`db0`, the data lines.

Every command sets those lines to one complete bus word.

The model has three layers.

- **Command encoder** (`instructions.dfy`, `driver.dfy`). It covers the
  HD44780 instruction words for clear display, return home, entry mode set,
  display on/off control, function set and set DDRAM address.
  - `Instructions.Encode` is the word layout. `Instructions.Decode` is an
    independent reader of words, and the two are proved inverse in both
    directions.
  - The class `Driver.GFC1602AI` holds the line levels as fields. It has one
    method per command, and each method's contract gives the exact new line
    state.
  - A ghost `log` records, in order, every bus word the commands leave on the
    lines as (register select, read/write, word).
  - `SetDdramAddress` and `WriteData` range-check their argument first. When
    the check fails they change nothing, not even the log.
- **Bit extraction** (`bits.dfy`). It models Python's `&` on non-negative
  integers and line truthiness, where a line is high iff `x & mask != 0`. On
  top of that it proves that spreading a byte across the eight lines and
  reading them back gives the byte again.
- **Character translator** (`chartable.dfy`). It models the literal lookup
  table from characters to code points in the controller's character ROM. It
  also models the one-character lookup with its two error cases (wrong length
  and missing key) and the whole-string translation.

On top of these, `WriteString` always issues the five setup instructions first.
- If two-line mode was asked for, it then fails.
- Otherwise it translates the whole string before writing anything, and
  writes the codes in order.
- Its contract gives the complete log: the setup words, followed by exactly
  the translated codes, or by nothing when it fails.

`wrappers.dfy` holds the `Option`, `Result` and `Outcome` types, plus the
Python exceptions the driver raises (`ValueError`, `KeyError`,
`NotImplementedError`).

Design choices:

- The eight data lines are one field, `db: DataLines`, of eight booleans,
  rather than eight separate fields. `Value(db)` is the byte they carry, with
  db7 the most significant bit.
- Inside each command, the source assigns `rs`, `rw` and `e` and then the data
  lines one after another. The helper method `SetLines` does those assignments
  and appends the new word to the log. This matters because the source has no
  strobe: a reader never sees the states in between.
- `SetupDisplay` is the first five calls of `write_string`, factored out into
  one method. The model has no counterpart for `test.py`.

Three behaviours of the code a reader might not expect, all modelled as the
code has them:

- `function_set()` with its default arguments encodes 0x30, not 0x20, because
  `data_length_8bits` defaults to true.
- `write_string(s, two_line_display=True)` issues all five setup instructions
  before it raises `NotImplementedError`. It also passes the caller's flag on
  to `function_set`, so those setup writes include the word 0x38.
- `write_string` issues the five setup instructions before it translates the
  string. An untranslatable character therefore leaves the setup writes in the
  log, but no data write.

## Model

| member | source | states |
|---|---|---|
| Driver.GFC1602AI.constructor | gfc1602ai.py:20-43 | a new driver has all eleven line fields and an empty log, and satisfies the driver invariant (writes only, bytes only, last word still on the lines) |
| Driver.GFC1602AI.SetLines | gfc1602ai.py:48-60 | every command's assignments: register select as given, read/write low, enable high, the data lines as given; exactly one word, the one the lines now carry, is appended to the log |
| Driver.GFC1602AI.ClearDisplay | gfc1602ai.py:45-60 | whatever the prior state, rs and rw are low, e is high, the data lines carry the clear-display word 0x01, and that one instruction word is logged |
| Driver.GFC1602AI.ReturnHome | gfc1602ai.py:62-76 | whatever the prior state, rs and rw are low, e is high, the data lines carry the return-home word 0x02, and that one instruction word is logged |
| Driver.GFC1602AI.EntryModeSet | gfc1602ai.py:78-92 | the lines carry the entry-mode word, with bit 1 set iff not decrementing and bit 0 the shift flag; rs low, rw low, e high; one instruction word logged |
| Driver.GFC1602AI.DisplayControl | gfc1602ai.py:94-108 | the lines carry the display-control word with the display, cursor and blink flags as bits 2..0; rs low, rw low, e high; one instruction word logged |
| Driver.GFC1602AI.FunctionSet | gfc1602ai.py:110-124 | the lines carry the function-set word with the data-length, line-count and font flags as bits 4..2; rs low, rw low, e high; one instruction word logged |
| Driver.GFC1602AI.SetDdramAddress | gfc1602ai.py:126-144 | fails with the address ValueError exactly when the address is outside 0..127, and then nothing changes, log included; otherwise db7 is high, the lines carry 0x80 + address, rs low, rw low, e high, and one instruction word is logged |
| Driver.GFC1602AI.WriteData | gfc1602ai.py:146-164 | fails with the data ValueError exactly when the value is outside 0..255, and then nothing changes; otherwise rs is high, rw low, e high, the lines read back as exactly the value, and one data write of it is logged |
| Driver.GFC1602AI.SetupDisplay | gfc1602ai.py:423-427 | the log grows by exactly the five setup instruction words, in the source's order, with the caller's line-count flag in the function-set word |
| Driver.GFC1602AI.WriteString | gfc1602ai.py:421-435 | fails iff two-line mode is asked for or some character does not translate, with NotImplementedError or the translator's error respectively; the log grows by the five setup words and then, only on success, one data write per translated code in input order |
| Driver.SetupWords | gfc1602ai.py:423-427 | the five setup writes are the instruction words 0x01, 0x80, 0x30 (0x38 for two lines), 0x0C and 0x06 |
| Driver.SetupLog | gfc1602ai.py:423-427 | five single-word steps in the string writer's order leave exactly the setup writes after the earlier log |
| Driver.DataWritesSnoc | gfc1602ai.py:434-435 | each loop step of the string writer extends the data writes by the one write of the next code |
| Driver.WriteStringA | gfc1602ai.py:421-435 | writing "A" on one line translates to the single code 0x41 and logs clear, address 0, function set 0x30, display on, entry mode 0x06, then a data write of 0x41 |
| Driver.Value | gfc1602ai.py:53-60 | the byte carried by the data lines is below 256 |
| Driver.MaskedLinesValue | gfc1602ai.py:157-164 | a byte spread over the data lines by masking, each line high iff `data & mask != 0`, reads back as that byte |
| Driver.ValueMaskedLines | gfc1602ai.py:157-164 | any line levels, read as a byte and spread again by masking, give back the same levels, so the masking is a bijection between bytes and line states |
| Driver.AddressLinesValue | gfc1602ai.py:137-144 | db7 forced high with the low seven lines masked from a 7-bit address carries 0x80 + address, and equals the plain masking of 0x80 + address |
| Instructions.Encode | gfc1602ai.py:45-124 | every encodable instruction's word is below 256 |
| Instructions.DecodeEncode | gfc1602ai.py:45-144 | decoding the word of any encodable instruction gives back the instruction, all flags and the address included |
| Instructions.EncodeDecode | gfc1602ai.py:45-144 | every word that decodes is the encoding of the instruction it decodes to, so the reader and the layout agree both ways |
| Instructions.DefaultWords | gfc1602ai.py:78-124 | the default arguments give the words 0x06 (entry mode), 0x0C (display on) and 0x30 (function set); two lines give 0x38; entry mode with both flags set gives 0x05; address 0 gives 0x80 |
| Bits.And | gfc1602ai.py:138-144 | Python's `&` on non-negative integers is no larger than either operand |
| Bits.WordOf | gfc1602ai.py:53-60 | eight line levels, db7 first, make a byte that is at least 128 iff db7 is high |
| Bits.MaskedPow2 | gfc1602ai.py:157-164 | masking with a single-bit mask is nonzero exactly when that bit of the value is set |
| Bits.ByteBits | gfc1602ai.py:157-164 | a byte is the weighted sum of its eight bits |
| Bits.MaskedLinesRoundTrip | gfc1602ai.py:157-164 | the eight masked tests of a byte, reassembled, give the byte |
| Bits.AddressLinesRoundTrip | gfc1602ai.py:137-144 | a high db7 with the seven masked tests of a 7-bit address, reassembled, give 0x80 + address |
| Bits.WordOfMasked | gfc1602ai.py:157-164 | masking the byte of eight line levels gives back each level |
| CharTable.Lookup | gfc1602ai.py:171-414 | every code the table holds lies in 0x10..0xD0, a valid data byte |
| CharTable.TranslateChar | gfc1602ai.py:166-414 | a string not exactly one character long fails with the length ValueError; otherwise it succeeds iff the character is in the table, failing with a KeyError for that string, and on success returns the table's code, which lies in 0x10..0xD0 |
| CharTable.TranslateStringElementwise | gfc1602ai.py:416-419 | translation succeeds iff every character is in the table; it then has the input's length and element i is the code of character i; otherwise it fails with the KeyError of the first character missing from the table |
| CharTable.TranslatedCodesAreBytes | gfc1602ai.py:416-419 | every code of a successful translation is in 0..255, so each is accepted by `write_data` |
| CharTable.EqualsSignKeepsLastValue | gfc1602ai.py:184-217 | '=' is written for 0x1C and again for 0x3D; the lookup gives 0x3D |
| CharTable.TildeKeepsLastValue | gfc1602ai.py:185-282 | '~' is written for 0x1D and again for 0x7E; the lookup gives 0x7E |
| CharTable.BacktickKeepsLastValue | gfc1602ai.py:252-335 | '`' is written for 0x60 and again for 0xB3; the lookup gives 0xB3 |
| CharTable.PlaceholderCodesUnreachable | gfc1602ai.py:174-349 | no character looks up to the codes whose only key is the empty string (0x12..0x1A, 0xB0, 0xB5, 0xB6, 0xC0, 0xC1) |
| CharTable.ShadowedCodesUnreachable | gfc1602ai.py:184-252 | no character looks up to 0x1C, 0x1D or 0x60, whose keys are written again later |
| CharTable.WrittenLookup | gfc1602ai.py:171-414 | the table as written: every code it holds lies in 0x10..0xD0, every key it holds is one character long except the two-character key for 0xA0, and 0xA0 belongs to that key alone |
| CharTable.TranslateCharAsWritten | gfc1602ai.py:166-414 | over the table as written: a string not one character long fails with the length ValueError; a one-character string succeeds iff it is a key, failing otherwise with a KeyError for that string; every success is that key's code, in 0x10..0xD0 |
| CharTable.TranslateString | gfc1602ai.py:416-419 | a successful translation has one code per character of the input |
| CharTable.TranslateStringAsWritten | gfc1602ai.py:416-419 | over the table as written, a successful translation has one code per character of the input; its contents and its error are given by `CharTable.StringAsWrittenAgrees` and `CharTable.StringAsWrittenFirstFailure` |
| CharTable.StringAsWrittenAgrees | gfc1602ai.py:316 | string translation over the table as written equals the corrected one on every string without U+00E1, and fails on every string containing it, with the error `CharTable.StringAsWrittenFirstFailure` names |
| CharTable.StringAsWrittenFirstFailure | gfc1602ai.py:416-419 | over the table as written, a failing translation raises the KeyError of its first character that is U+00E1 or missing from the table, every earlier character being a key |
| CharTable.OnlyAcuteAHasA0 | gfc1602ai.py:316 | in the corrected table, code 0xA0 belongs to U+00E1 and to no other character |
| CharTable.AsWrittenA0Unreachable | gfc1602ai.py:316 | as written, no argument translates to 0xA0: the decomposed key fails the length check, and the one-character letter is a missing key |
| CharTable.CorrectedA0Reachable | gfc1602ai.py:316 | the corrected table translates U+00E1 to 0xA0 and agrees with the table as written on every other argument |

## Left out

- Pin acquisition and direction setup (`digitalio.DigitalInOut`, `board`) are foreign hardware calls. The constructor takes no pin identifiers, and the lines are plain fields.
- Physical timing is not modelled: enable pulse width, setup and hold times, and settling delays. The source has no delays and never lowers `e`, and neither does the model.
- The order of the single-line assignments inside one command is not modelled. The command's lines are updated as one step, which changes nothing observable because no strobe happens in between.
- The bus log is ghost. It records the word the lines hold after each command and is an observer only; the source keeps no such record.
- Table keys that are the empty string (the placeholder codes 0x12..0x1A, 0xB0, 0xB5, 0xB6, 0xC0, 0xC1 and 0xD1..0xFF) are omitted. The length check rejects them before the table is consulted, so no argument can reach them.
- Two-line display addressing is not modelled because it is unimplemented and only raises. 4-bit mode, busy-flag read-back and CGRAM programming are not modelled because the code has none of them.
- `test.py` is not part of this model. It is a hardware smoke script with no logic, so it adds nothing to the core's behaviour.
- CharTable.Lookup: holds U+00E1 for code 0xA0, the corrected key of the finding below; the table as written, with its two-character key, is `CharTable.WrittenLookup`.
- CharTable.TranslateChar: succeeds on U+00E1 with 0xA0, where the code as written raises KeyError; `CharTable.CorrectedA0Reachable` proves this is the only argument on which it differs from `CharTable.TranslateCharAsWritten`.
- CharTable.TranslateString: built on the corrected `CharTable.TranslateChar`; for a string containing U+00E1 the code as written always raises KeyError, naming its first character that is U+00E1 or not a key (`CharTable.StringAsWrittenFirstFailure`). The model instead succeeds, with 0xA0 for each U+00E1, when every other character is in the table, and otherwise raises the KeyError of the first character missing from the corrected table; so on "á€" the code as written names 'á' and the model names '€', while on "€á" both name '€'. On strings without U+00E1 the two agree (`CharTable.StringAsWrittenAgrees`).
- CharTable.TranslateStringElementwise: "in the table" means the corrected table; for a string containing U+00E1 the code as written always raises KeyError, naming its first character that is U+00E1 or not a key (`CharTable.StringAsWrittenFirstFailure`). The model instead succeeds, with 0xA0 for each U+00E1, when every other character is in the table, and otherwise raises the KeyError of the first character missing from the corrected table; so on "á€" the code as written names 'á' and the model names '€', while on "€á" both name '€'. On strings without U+00E1 the two agree (`CharTable.StringAsWrittenAgrees`).
- Driver.GFC1602AI.WriteString: translates with the corrected table, after the five setup words in both versions; for a string containing U+00E1 the code as written always raises KeyError, naming its first character that is U+00E1 or not a key (`CharTable.StringAsWrittenFirstFailure`). The model instead writes the data, with 0xA0 for each U+00E1, when every other character is in the table, and otherwise raises the KeyError of the first character missing from the corrected table; so on "á€" the code as written names 'á' and the model names '€', while on "€á" both name '€'. On strings without U+00E1 the two agree (`CharTable.StringAsWrittenAgrees`).
- Instructions.Encode: its own contract states only the byte bound. Its meaning is given by `Instructions.Decode` and the two round-trip lemmas.
- Instructions.Decode treats words with don't-care bits set as undecodable: function set with bit 1 or bit 0 set, and return home with bit 0 set (0x03). The driver never issues such a word.

## Findings

| source | as written | input that shows it | evidently intended | confidence | as-written member | corrected member |
|---|---|---|---|---|---|---|
| gfc1602ai.py:316 | the key for code 0xA0 is `a` followed by U+0301 COMBINING ACUTE ACCENT, a two-character string, which the length check at line 168 always rejects | `_translate_char` of the one-character U+00E1 fails with KeyError, and of the two-character `a` + U+0301 fails with ValueError, so 0xA0 is never produced | the key is the precomposed U+00E1, like the neighbouring í, ó and ú, and U+00E1 translates to 0xA0 | not executed | CharTable.AsWrittenA0Unreachable | CharTable.CorrectedA0Reachable |
