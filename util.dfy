/** The platform identifier of a Source game server (`valve.source.util.Platform`).

    A platform is one of four integer codes, which are the ASCII code points of
    the letters the server reports: 108 'l' (Linux), 109 'm' (legacy Mac OS),
    111 'o' (Mac OS X) and 119 'w' (Windows). A platform is built from an
    integer, from a one-character string or from a name, is immutable, and
    compares equal to every other form of the same platform, with 109 and 111
    treated as one platform for comparison only. */
module Util {
  import opened Ascii

  datatype Result<+T, +E> = Success(value: T) | Failure(error: E)

  /** The recognised platform codes. */
  type Code = c: int | c in {108, 109, 111, 119} witness 108

  /** What `Platform(...)` may be given: an integer, or text. */
  datatype Identifier = Int(n: int) | Text(s: string)

  /** The one error construction raises (Python's `ValueError`). The rejected
      input it carries is this model's addition: only the exception type is observed. */
  datatype Error = ValueError(rejected: Identifier)

  /** The names a multi-character identifier is looked up in, after lower-casing.
      There is no name for 109: "mac os x" always gives 111. */
  const NameTable: map<string, Code> := map["linux" := 108, "mac os x" := 111, "windows" := 119]

  /** The right-hand side of `platform == other`: another platform or a raw identifier. */
  datatype Operand = OfPlatform(p: Platform) | OfIdentifier(id: Identifier)

  datatype Platform = Platform(value: Code) {

    /** `unicode(platform)`: the display name; 109 and 111 share "Mac OS X". */
    function ToUnicode(): (r: string)
      ensures IsAscii(r)
      ensures |r| > 1
    {
      match value
      case 108 => "Linux"
      case 109 => "Mac OS X"
      case 111 => "Mac OS X"
      case 119 => "Windows"
    }

    /** `bytes(platform)`: the display name as ASCII bytes. */
    function ToBytes(): (r: seq<byte>)
      ensures |r| == |ToUnicode()|
      ensures Decode(r) == ToUnicode()
    {
      DecodeEncode(ToUnicode());
      Encode(ToUnicode())
    }

    /** `int(platform)`: the stored code, with 109 and 111 kept apart. */
    function ToInt(): (r: int)
      ensures r in {108, 109, 111, 119}
      ensures Parse(Int(r)) == Success(this)
    {
      value
    }

    /** `platform.os_name`: the `os.name` of the platform's family. */
    function OsName(): (r: string)
      ensures r == "posix" || r == "nt"
      ensures r == "nt" <==> ToUnicode() == "Windows"
    {
      if value == 119 then "nt" else "posix"
    }

    /** The representative of this platform's equality class: 109 is folded onto 111. */
    function Canonical(): (r: Code)
      ensures r != 109
      ensures r == value || (value == 109 && r == 111)
    {
      if value == 109 then 111 else value
    }

    /** `platform == other`: the other side is brought to a code by the rules of
        construction; the codes are equal or are 109 and 111 in either order.
        An operand that construction would reject compares unequal. */
    function Equals(other: Operand): (r: bool)
      ensures other == OfPlatform(this) ==> r
      ensures other.OfPlatform? ==> (r <==> Canonical() == other.p.Canonical())
      ensures other.OfIdentifier? ==>
        (r <==> Parse(other.id).Success? && Canonical() == Parse(other.id).value.Canonical())
    {
      match other
      case OfPlatform(q) => SameCode(value, q.value)
      case OfIdentifier(id) =>
        match Parse(id)
        case Success(q) => SameCode(value, q.value)
        case Failure(_) => false
    }
  }

  /** The comparison rule of `==`: equal codes, or 109 and 111 in either order. */
  predicate SameCode(a: Code, b: Code) {
    a == b || (a == 109 && b == 111) || (a == 111 && b == 109)
  }

  /** The integer check every identifier goes through last. */
  function CheckCode(id: Identifier, n: int): (r: Result<Platform, Error>)
    ensures r.Success? <==> n in {108, 109, 111, 119}
    ensures r.Success? ==> r.value.value == n
    ensures r.Failure? ==> r.error == ValueError(id)
  {
    if n in {108, 109, 111, 119} then Success(Platform(n)) else Failure(ValueError(id))
  }

  /** `Platform(identifier)`: an integer must be one of the four codes; a
      one-character string stands for its code point; a longer (or empty)
      string is lower-cased and looked up in the name table. */
  function Parse(id: Identifier): (r: Result<Platform, Error>)
    ensures r.Failure? ==> r.error == ValueError(id)
  {
    match id
    case Int(n) => CheckCode(id, n)
    case Text(s) =>
      if |s| == 1 then CheckCode(id, s[0] as int)
      else if ToLower(s) in NameTable then CheckCode(id, NameTable[ToLower(s)])
      else Failure(ValueError(id))
  }

  /** Reference definition of construction, independent of the name table and
      of lower-casing: the identifiers that denote platform `p`. */
  predicate Spells(id: Identifier, p: Platform) {
    match id
    case Int(n) => n == p.value
    case Text(s) =>
      || (|s| == 1 && s[0] as int == p.value)
      || (p.value == 108 && MatchesIgnoringCase(s, "linux"))
      || (p.value == 111 && MatchesIgnoringCase(s, "mac os x"))
      || (p.value == 119 && MatchesIgnoringCase(s, "windows"))
  }

  /** Construction succeeds with `p` exactly for the identifiers that spell `p`. */
  lemma ParseAcceptsExactlySpellings(id: Identifier, p: Platform)
    ensures Parse(id) == Success(p) <==> Spells(id, p)
  {
    if id.Text? && |id.s| != 1 {
      ToLowerMatches(id.s, "linux");
      ToLowerMatches(id.s, "mac os x");
      ToLowerMatches(id.s, "windows");
    }
  }

  /** Construction fails, with `ValueError`, exactly for the identifiers that spell no platform. */
  lemma ParseRejectsExactlyNonSpellings(id: Identifier)
    ensures Parse(id).Failure? <==> forall p: Platform :: !Spells(id, p)
    ensures Parse(id).Failure? ==> Parse(id).error == ValueError(id)
  {
    forall p: Platform ensures Parse(id) == Success(p) <==> Spells(id, p) {
      ParseAcceptsExactlySpellings(id, p);
    }
  }

  /** No text other than the single character "m" gives the legacy Mac code:
      the name "mac os x", in any casing, gives 111. */
  lemma LegacyMacOnlyFromCode(id: Identifier)
    ensures Parse(id) == Success(Platform(109)) <==> id == Int(109) || id == Text("m")
  {
    ParseAcceptsExactlySpellings(id, Platform(109));
    if id.Text? && |id.s| == 1 && id.s[0] == 'm' {
      assert id.s == "m";
    }
  }

  /** Every casing of a known name is accepted, and gives the name's code. */
  lemma NamesIgnoreCase(s: string)
    ensures MatchesIgnoringCase(s, "linux") ==> Parse(Text(s)) == Success(Platform(108))
    ensures MatchesIgnoringCase(s, "mac os x") ==> Parse(Text(s)) == Success(Platform(111))
    ensures MatchesIgnoringCase(s, "windows") ==> Parse(Text(s)) == Success(Platform(119))
  {
    ParseAcceptsExactlySpellings(Text(s), Platform(108));
    ParseAcceptsExactlySpellings(Text(s), Platform(111));
    ParseAcceptsExactlySpellings(Text(s), Platform(119));
  }

  /** Construction from text depends on the letters only, not on their case,
      once the text is longer than one character. */
  lemma ParseIgnoresCase(s: string, t: string)
    requires |s| != 1 && ToLower(s) == ToLower(t)
    ensures Parse(Text(s)) == Parse(Text(t)) || (Parse(Text(s)).Failure? && Parse(Text(t)).Failure?)
  {
    assert |t| == |s|;
  }

  /** The integer and character examples of the test suite. */
  lemma CodeExamples()
    ensures forall c: Code :: Parse(Int(c)) == Success(Platform(c))
    ensures Parse(Text("l")) == Success(Platform(108)) && Parse(Text("m")) == Success(Platform(109))
    ensures Parse(Text("o")) == Success(Platform(111)) && Parse(Text("w")) == Success(Platform(119))
  {
  }

  /** The test suite's casings of "linux". */
  lemma LinuxNameExamples()
    ensures Parse(Text("linux")) == Success(Platform(108))
    ensures Parse(Text("Linux")) == Success(Platform(108))
    ensures Parse(Text("LINUX")) == Success(Platform(108))
  {
    NamesIgnoreCase("linux");
    NamesIgnoreCase("Linux");
    NamesIgnoreCase("LINUX");
  }

  /** The test suite's casings of "mac os x". */
  lemma MacOsXNameExamples()
    ensures Parse(Text("mac os x")) == Success(Platform(111))
    ensures Parse(Text("Mac OS X")) == Success(Platform(111))
    ensures Parse(Text("MAC OS X")) == Success(Platform(111))
  {
    NamesIgnoreCase("mac os x");
    NamesIgnoreCase("Mac OS X");
    NamesIgnoreCase("MAC OS X");
  }

  /** The test suite's casings of "windows". */
  lemma WindowsNameExamples()
    ensures Parse(Text("windows")) == Success(Platform(119))
    ensures Parse(Text("Windows")) == Success(Platform(119))
    ensures Parse(Text("WINDOWS")) == Success(Platform(119))
  {
    NamesIgnoreCase("windows");
    NamesIgnoreCase("Windows");
    NamesIgnoreCase("WINDOWS");
  }

  /** The rejected examples of the test suite, and an upper-case character code. */
  lemma RejectedExamples()
    ensures Parse(Int(50)) == Failure(ValueError(Int(50)))
    ensures Parse(Text("a")) == Failure(ValueError(Text("a")))
    ensures Parse(Text("raindeer")) == Failure(ValueError(Text("raindeer")))
    ensures Parse(Text("")) == Failure(ValueError(Text("")))
    ensures Parse(Text("L")) == Failure(ValueError(Text("L")))
  {
    var s := "raindeer";
    assert |s| == 8 && s[0] == 'r';
    assert !MatchesIgnoringCase(s, "mac os x") by {
      assert "mac os x"[0] == 'm';
    }
    ParseRejectsExactlyNonSpellings(Text(s));
  }

  /** The display and family tables of the test suite. */
  lemma DisplayAndFamilyTables()
    ensures Platform(108).ToUnicode() == "Linux" && Platform(119).ToUnicode() == "Windows"
    ensures Platform(109).ToUnicode() == "Mac OS X" && Platform(111).ToUnicode() == "Mac OS X"
    ensures Platform(108).OsName() == "posix" && Platform(109).OsName() == "posix"
    ensures Platform(111).OsName() == "posix" && Platform(119).OsName() == "nt"
  {
  }

  /** The byte table of the test suite: the ASCII codes of the display names. */
  lemma LinuxBytes()
    ensures Platform(108).ToBytes() == [76, 105, 110, 117, 120]
  {
    assert "Linux" == ['L', 'i', 'n', 'u', 'x'];
  }

  lemma MacOsXBytes()
    ensures Platform(109).ToBytes() == [77, 97, 99, 32, 79, 83, 32, 88]
    ensures Platform(111).ToBytes() == [77, 97, 99, 32, 79, 83, 32, 88]
  {
    assert "Mac OS X" == ['M', 'a', 'c', ' ', 'O', 'S', ' ', 'X'];
  }

  lemma WindowsBytes()
    ensures Platform(119).ToBytes() == [87, 105, 110, 100, 111, 119, 115]
  {
    assert "Windows" == ['W', 'i', 'n', 'd', 'o', 'w', 's'];
  }

  /** Equality between platforms is equality of their classes, {109, 111} being one class. */
  lemma EqualsIsClassEquality(p: Platform, q: Platform)
    ensures p.Equals(OfPlatform(q)) <==> p.Canonical() == q.Canonical()
  {
  }

  /** Equality between platforms is an equivalence relation. */
  lemma EqualsIsEquivalence(p: Platform, q: Platform, o: Platform)
    ensures p.Equals(OfPlatform(p))
    ensures p.Equals(OfPlatform(q)) <==> q.Equals(OfPlatform(p))
    ensures p.Equals(OfPlatform(q)) && q.Equals(OfPlatform(o)) ==> p.Equals(OfPlatform(o))
  {
    EqualsIsClassEquality(p, q);
    EqualsIsClassEquality(q, o);
    EqualsIsClassEquality(p, o);
  }

  /** A platform equals a raw identifier exactly when the identifier spells a
      platform of the same class; an identifier that spells nothing is unequal. */
  lemma EqualsIdentifier(p: Platform, id: Identifier)
    ensures p.Equals(OfIdentifier(id)) <==> exists q: Platform :: Spells(id, q) && p.Canonical() == q.Canonical()
    ensures Parse(id).Success? ==> (p.Equals(OfIdentifier(id)) <==> p.Equals(OfPlatform(Parse(id).value)))
  {
    match Parse(id)
    case Success(q) =>
      ParseAcceptsExactlySpellings(id, q);
      forall q': Platform | Spells(id, q') ensures q' == q {
        ParseAcceptsExactlySpellings(id, q');
      }
    case Failure(_) =>
      ParseRejectsExactlyNonSpellings(id);
  }

  /** Every form a platform can be written in compares equal to it: its
      integer, its character and its display name. The name of 109 parses to
      111, which is still equal. */
  lemma EqualsOwnForms(p: Platform)
    ensures p.Equals(OfIdentifier(Int(p.ToInt())))
    ensures p.Equals(OfIdentifier(Text([p.value as char])))
    ensures Parse(Text(p.ToUnicode())) == Success(Platform(p.Canonical()))
    ensures p.Equals(OfIdentifier(Text(p.ToUnicode())))
  {
    NamesIgnoreCase(p.ToUnicode());
  }

  /** Equal platforms have the same display name, bytes and family; only the
      integer projection tells 109 from 111. */
  lemma EqualPlatformsProjectAlike(p: Platform, q: Platform)
    requires p.Equals(OfPlatform(q))
    ensures p.ToUnicode() == q.ToUnicode() && p.ToBytes() == q.ToBytes() && p.OsName() == q.OsName()
    ensures p.ToInt() == q.ToInt() <==> p == q
  {
  }

  /** The equality examples of the test suite, against platforms, integers, characters and names. */
  lemma EqualityExamples()
    ensures forall c: Code :: Platform(c).Equals(OfPlatform(Platform(c)))
    ensures Platform(109).Equals(OfPlatform(Platform(111))) && Platform(111).Equals(OfPlatform(Platform(109)))
    ensures forall c: Code :: Platform(c).Equals(OfIdentifier(Int(c)))
    ensures Platform(109).Equals(OfIdentifier(Int(111))) && Platform(111).Equals(OfIdentifier(Int(109)))
    ensures Platform(108).Equals(OfIdentifier(Text("l"))) && Platform(109).Equals(OfIdentifier(Text("m")))
    ensures Platform(111).Equals(OfIdentifier(Text("o"))) && Platform(119).Equals(OfIdentifier(Text("w")))
    ensures Platform(109).Equals(OfIdentifier(Text("o"))) && Platform(111).Equals(OfIdentifier(Text("m")))
    ensures Platform(108).Equals(OfIdentifier(Text("Linux"))) && Platform(119).Equals(OfIdentifier(Text("Windows")))
    ensures Platform(109).Equals(OfIdentifier(Text("Mac OS X"))) && Platform(111).Equals(OfIdentifier(Text("Mac OS X")))
  {
    CodeExamples();
    LinuxNameExamples();
    MacOsXNameExamples();
    WindowsNameExamples();
  }
}
