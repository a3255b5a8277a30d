# Platform identifiers of python-valve

This project models `valve.source.util.Platform`, the value type python-valve
uses for the operating system a Source game server reports. A platform is one
of four integer codes. They are the ASCII code points of the letters a server
sends: 108 `l` (Linux), 109 `m` (legacy Mac OS), 111 `o` (Mac OS X) and 119 `w`
(Windows).

`Platform(x)` accepts an integer, a one-character string or a name, and raises
`ValueError` for anything else. A platform yields a display name, the same name
as bytes, its integer and its `os.name` family. It compares equal to any
other platform, integer, character or name of the same platform, and 109 and
111 count as one platform for that comparison.

The behaviour of `util.Platform` is taken from the assertions in
`valve/source/tests/test_util.py`.

- `ascii.dfy` (module `Ascii`): ASCII lower-casing, a reference definition of
  "the same text up to case", and ASCII encoding and decoding of bytes.
- `util.dfy` (module `Util`): the `Platform` datatype, construction (`Parse`,
  which returns a `Result` instead of raising), the four projections and
  `Equals`. It also holds `Spells`, a reference definition of which identifiers
  denote which platform, and the lemmas that connect the operations to it and to
  the test tables.

Modelling decisions:

- Single characters are not case-folded. A one-character string stands for
  its code point, which must be one of the four codes: `l`, `m`, `o` and `w`
  are exactly the characters of 108, 109, 111 and 119. So `"L"` (code point 76)
  is rejected (`Util.RejectedExamples`). The tests only use lower-case
  characters, so they do not decide this.
- A string of any other length, including the empty string, is lower-cased and
  looked up among `linux`, `mac os x` and `windows`. No name gives 109.
- Comparing against an operand that construction rejects gives "not equal".
  This is a design choice: the tests never compare against an invalid operand.

## Model

| member | source | states |
|---|---|---|
| `Util.Parse` | valve/source/tests/test_util.py:14-58 | a failed construction is a `ValueError`; the error carries the rejected input, a detail of this model since the tests check only the exception type |
| `Util.CheckCode` | valve/source/tests/test_util.py:14-21 | an integer is accepted exactly when it is 108, 109, 111 or 119, and is stored unchanged; otherwise `ValueError` |
| `Util.ParseAcceptsExactlySpellings` | valve/source/tests/test_util.py:14-58 | construction gives platform `p` exactly when the identifier spells `p`: its integer, its code-point character, or its name in any casing (no name for 109) |
| `Util.ParseRejectsExactlyNonSpellings` | valve/source/tests/test_util.py:19-58 | construction fails, with `ValueError` of the input, exactly when the identifier spells no platform |
| `Util.LegacyMacOnlyFromCode` | valve/source/tests/test_util.py:37-50 | only the integer 109 and the text "m" give 109; "mac os x" in any casing never does |
| `Util.NamesIgnoreCase` | valve/source/tests/test_util.py:37-50 | every upper/lower-case spelling of "linux", "mac os x", "windows" gives 108, 111, 119 |
| `Util.ParseIgnoresCase` | valve/source/tests/test_util.py:37-58 | two texts longer or shorter than one character that agree after lower-casing are accepted alike or both rejected |
| `Util.CodeExamples` | valve/source/tests/test_util.py:14-31 | the four integers give themselves; "l", "m", "o", "w" give 108, 109, 111, 119 |
| `Util.LinuxNameExamples` | valve/source/tests/test_util.py:37-50 | "linux", "Linux", "LINUX" give 108 |
| `Util.MacOsXNameExamples` | valve/source/tests/test_util.py:37-50 | "mac os x", "Mac OS X", "MAC OS X" give 111, not 109 |
| `Util.WindowsNameExamples` | valve/source/tests/test_util.py:37-50 | "windows", "Windows", "WINDOWS" give 119 |
| `Util.RejectedExamples` | valve/source/tests/test_util.py:19-58 | 50, "a", "raindeer", "" and "L" are rejected with `ValueError` |
| `Util.Platform.ToUnicode` | valve/source/tests/test_util.py:60-68 | the display name is ASCII and never a single character, so it cannot be read back as a character code |
| `Util.Platform.ToBytes` | valve/source/tests/test_util.py:70-78 | the bytes have the display name's length and decode to the display name |
| `Util.Platform.ToInt` | valve/source/tests/test_util.py:80-83 | the integer is one of the four codes, and constructing from it gives back the same platform, so 109 and 111 stay distinct |
| `Util.Platform.OsName` | valve/source/tests/test_util.py:85-93 | the family is "posix" or "nt", and "nt" exactly for the platform named "Windows" |
| `Util.Platform.Canonical` | valve/source/tests/test_util.py:95-104 | the representative of a platform's equality class is never 109, and differs from the code only by folding 109 onto 111 |
| `Util.Platform.Equals` | valve/source/tests/test_util.py:95-135 | every platform equals itself; against a platform, equality holds exactly when the class representatives (`Canonical`, 109 folded onto 111) agree; against a raw identifier, exactly when construction accepts it and the constructed platform's representative agrees; see also `Util.EqualsIsClassEquality` and `Util.EqualsIdentifier` |
| `Util.DisplayAndFamilyTables` | valve/source/tests/test_util.py:60-93 | the display table (109 and 111 both "Mac OS X") and the family table (119 "nt", the rest "posix") |
| `Util.LinuxBytes` | valve/source/tests/test_util.py:70-78 | the bytes of 108 are the ASCII codes of "Linux" |
| `Util.MacOsXBytes` | valve/source/tests/test_util.py:70-78 | the bytes of 109 and of 111 are the ASCII codes of "Mac OS X" |
| `Util.WindowsBytes` | valve/source/tests/test_util.py:70-78 | the bytes of 119 are the ASCII codes of "Windows" |
| `Util.EqualsIsClassEquality` | valve/source/tests/test_util.py:95-104 | two platforms are equal exactly when their class representatives are, so {109, 111} is one class |
| `Util.EqualsIsEquivalence` | valve/source/tests/test_util.py:95-104 | platform equality is reflexive, symmetric and transitive |
| `Util.EqualsIdentifier` | valve/source/tests/test_util.py:106-135 | a platform equals a raw identifier exactly when the identifier spells a platform of the same class, and then it agrees with equality against the constructed platform |
| `Util.EqualsOwnForms` | valve/source/tests/test_util.py:106-135 | a platform equals its own integer, its character and its display name; the name of 109 constructs 111 |
| `Util.EqualPlatformsProjectAlike` | valve/source/tests/test_util.py:60-104 | equal platforms share display name, bytes and family; their integers agree only when the platforms are identical |
| `Util.EqualityExamples` | valve/source/tests/test_util.py:95-135 | every equality example of the tests, against platforms, integers, characters and names, including the Mac cross cases |
| `Ascii.ToLower` | valve/source/tests/test_util.py:37-50 | lower-casing keeps the length, leaves no upper-case letter, and changes a character only to the letter whose upper-case form it was |
| `Ascii.ToLowerMatches` | valve/source/tests/test_util.py:37-50 | lower-casing gives a lower-case pattern exactly when the text spells the pattern with any mix of cases |
| `Ascii.ToLowerIdempotent` | valve/source/tests/test_util.py:37-50 | lower-casing twice is the same as lower-casing once |
| `Ascii.Encode` | valve/source/tests/test_util.py:70-78 | the encoding has one byte per character, holding its code point |
| `Ascii.Decode` | valve/source/tests/test_util.py:70-78 | decoding gives one character per byte, with the byte's value |
| `Ascii.DecodeEncode` | valve/source/tests/test_util.py:70-78 | decoding the encoding of ASCII text gives back the text |
| `Ascii.EncodeDecode` | valve/source/tests/test_util.py:70-78 | bytes below 128 decode to ASCII text whose encoding gives back the bytes |

## Left out

- `Util.Platform.Equals`: an operand that construction rejects compares unequal. This is a design choice. The tests never compare against a rejected operand; a Python `==` that builds a `Platform` from the operand would raise `ValueError` there.
- Hashing (`__hash__`) is not modelled. Datatype values need no hash here, and the tests do not assert one.
- `__ne__` is not modelled. The tests only use `==`.
- Python 2/3 text handling (`unicode_literals`, `unicode()` and `bytes()`) is not modelled. Text is a `string`, and bytes are a sequence of `byte` values.
- Only integers and text are modelled as identifiers. Other Python values, such as floats, `None` or other objects, are not.
- Lower-casing covers ASCII letters only. Under Python 2, `unicode.lower()` maps 'İ' (U+0130) to 'i', so "LİNUX" and "WİNDOWS" would be accepted there. This model rejects them, as Python 3's `lower()` also does. No test uses non-ASCII text.
- Any use of `Platform` elsewhere in python-valve is not modelled: server queries, the master-server client, RCON and the Steam web API. All of it is network I/O.
