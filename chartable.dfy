/**
 * The character translator: the literal lookup table from characters to the
 * controller's character-ROM code points, the one-character lookup, and the
 * whole-string translation.
 *
 * The table literal lists its keys in rising code order and is split here
 * into six blocks of consecutive codes. A dictionary literal that repeats a
 * key keeps the last value; repeated keys fall in different blocks, so
 * Lookup lets a later block override an earlier one. Keys that are the empty
 * string are left out: a lookup with a key that is not exactly one character
 * long is refused before the table is consulted.
 */
module CharTable {
  import opened Wrappers

  /** The message of the error raised for an argument that is not one character long. */
  const LengthMessage := "Input must be a single character."

  /** The table entries for codes 0x10 to 0x2F: mathematical signs, then ASCII from the space to the slash. */
  function Codes10To2F(c: char): (r: Option<int>)
    ensures r.Some? ==> 0x10 <= r.value <= 0x2F
    ensures r.Some? ==> !(0x12 <= r.value <= 0x1A)
  {
    match c
    case '±' => Some(0x10)
    case '≡' => Some(0x11)
    case '∫' => Some(0x1B)
    case '=' => Some(0x1C)
    case '~' => Some(0x1D)
    case '²' => Some(0x1E)
    case '³' => Some(0x1F)
    case ' ' => Some(0x20)
    case '!' => Some(0x21)
    case '"' => Some(0x22)
    case '#' => Some(0x23)
    case '$' => Some(0x24)
    case '%' => Some(0x25)
    case '&' => Some(0x26)
    case '\'' => Some(0x27)
    case '(' => Some(0x28)
    case ')' => Some(0x29)
    case '*' => Some(0x2A)
    case '+' => Some(0x2B)
    case ',' => Some(0x2C)
    case '-' => Some(0x2D)
    case '.' => Some(0x2E)
    case '/' => Some(0x2F)
    case _ => None
  }

  /** The table entries for codes 0x30 to 0x4F: digits, punctuation, `@` and the capitals A to O. */
  function Codes30To4F(c: char): (r: Option<int>)
    ensures r.Some? ==> 0x30 <= r.value <= 0x4F
  {
    match c
    case '0' => Some(0x30)
    case '1' => Some(0x31)
    case '2' => Some(0x32)
    case '3' => Some(0x33)
    case '4' => Some(0x34)
    case '5' => Some(0x35)
    case '6' => Some(0x36)
    case '7' => Some(0x37)
    case '8' => Some(0x38)
    case '9' => Some(0x39)
    case ':' => Some(0x3A)
    case ';' => Some(0x3B)
    case '<' => Some(0x3C)
    case '=' => Some(0x3D)
    case '>' => Some(0x3E)
    case '?' => Some(0x3F)
    case '@' => Some(0x40)
    case 'A' => Some(0x41)
    case 'B' => Some(0x42)
    case 'C' => Some(0x43)
    case 'D' => Some(0x44)
    case 'E' => Some(0x45)
    case 'F' => Some(0x46)
    case 'G' => Some(0x47)
    case 'H' => Some(0x48)
    case 'I' => Some(0x49)
    case 'J' => Some(0x4A)
    case 'K' => Some(0x4B)
    case 'L' => Some(0x4C)
    case 'M' => Some(0x4D)
    case 'N' => Some(0x4E)
    case 'O' => Some(0x4F)
    case _ => None
  }

  /** The table entries for codes 0x50 to 0x6F: the capitals P to Z, brackets, and the small letters to o. */
  function Codes50To6F(c: char): (r: Option<int>)
    ensures r.Some? ==> 0x50 <= r.value <= 0x6F
  {
    match c
    case 'P' => Some(0x50)
    case 'Q' => Some(0x51)
    case 'R' => Some(0x52)
    case 'S' => Some(0x53)
    case 'T' => Some(0x54)
    case 'U' => Some(0x55)
    case 'V' => Some(0x56)
    case 'W' => Some(0x57)
    case 'X' => Some(0x58)
    case 'Y' => Some(0x59)
    case 'Z' => Some(0x5A)
    case '[' => Some(0x5B)
    case '\\' => Some(0x5C)
    case ']' => Some(0x5D)
    case '^' => Some(0x5E)
    case '_' => Some(0x5F)
    case '`' => Some(0x60)
    case 'a' => Some(0x61)
    case 'b' => Some(0x62)
    case 'c' => Some(0x63)
    case 'd' => Some(0x64)
    case 'e' => Some(0x65)
    case 'f' => Some(0x66)
    case 'g' => Some(0x67)
    case 'h' => Some(0x68)
    case 'i' => Some(0x69)
    case 'j' => Some(0x6A)
    case 'k' => Some(0x6B)
    case 'l' => Some(0x6C)
    case 'm' => Some(0x6D)
    case 'n' => Some(0x6E)
    case 'o' => Some(0x6F)
    case _ => None
  }

  /** The table entries for codes 0x70 to 0x8F: the small letters p to z, braces, delta and accented Latin letters. */
  function Codes70To8F(c: char): (r: Option<int>)
    ensures r.Some? ==> 0x70 <= r.value <= 0x8F
  {
    match c
    case 'p' => Some(0x70)
    case 'q' => Some(0x71)
    case 'r' => Some(0x72)
    case 's' => Some(0x73)
    case 't' => Some(0x74)
    case 'u' => Some(0x75)
    case 'v' => Some(0x76)
    case 'w' => Some(0x77)
    case 'x' => Some(0x78)
    case 'y' => Some(0x79)
    case 'z' => Some(0x7A)
    case '{' => Some(0x7B)
    case '|' => Some(0x7C)
    case '}' => Some(0x7D)
    case '~' => Some(0x7E)
    case 'Δ' => Some(0x7F)
    case 'Ç' => Some(0x80)
    case 'ü' => Some(0x81)
    case 'é' => Some(0x82)
    case 'â' => Some(0x83)
    case 'ä' => Some(0x84)
    case 'à' => Some(0x85)
    case 'å' => Some(0x86)
    case 'ç' => Some(0x87)
    case 'ê' => Some(0x88)
    case 'ë' => Some(0x89)
    case 'è' => Some(0x8A)
    case 'ï' => Some(0x8B)
    case 'î' => Some(0x8C)
    case 'ì' => Some(0x8D)
    case 'Ä' => Some(0x8E)
    case 'Å' => Some(0x8F)
    case _ => None
  }

  /** The table entries for codes 0x90 to 0xAF: accented Latin letters and currency signs. */
  function Codes90ToAF(c: char): (r: Option<int>)
    ensures r.Some? ==> 0x90 <= r.value <= 0xAF
  {
    match c
    case 'É' => Some(0x90)
    case 'æ' => Some(0x91)
    case 'Æ' => Some(0x92)
    case 'ô' => Some(0x93)
    case 'ö' => Some(0x94)
    case 'ò' => Some(0x95)
    case 'û' => Some(0x96)
    case 'ù' => Some(0x97)
    case 'ÿ' => Some(0x98)
    case 'Ö' => Some(0x99)
    case 'Ü' => Some(0x9A)
    case 'ñ' => Some(0x9B)
    case 'Ñ' => Some(0x9C)
    case 'ª' => Some(0x9D)
    case 'º' => Some(0x9E)
    case '¿' => Some(0x9F)
    case '\U{00E1}' => Some(0xA0)  // precomposed; see WrittenLookup
    case 'í' => Some(0xA1)
    case 'ó' => Some(0xA2)
    case 'ú' => Some(0xA3)
    case '¢' => Some(0xA4)
    case '£' => Some(0xA5)
    case '¥' => Some(0xA6)
    case '₧' => Some(0xA7)
    case 'ƒ' => Some(0xA8)
    case '𝑖' => Some(0xA9)
    case 'Ã' => Some(0xAA)
    case 'ã' => Some(0xAB)
    case 'Õ' => Some(0xAC)
    case 'õ' => Some(0xAD)
    case 'Ø' => Some(0xAE)
    case 'ø' => Some(0xAF)
    case _ => None
  }

  /** The table entries for codes 0xB0 to 0xFF: diacritics, relations, arrows and frame corners; the codes 0xB0, 0xB5, 0xB6, 0xC0, 0xC1 and 0xD1 to 0xFF have no glyph here. */
  function CodesB0ToFF(c: char): (r: Option<int>)
    ensures r.Some? ==> 0xB1 <= r.value <= 0xD0
    ensures r.Some? ==> r.value !in {0xB5, 0xB6, 0xC0, 0xC1}
  {
    match c
    case '¨' => Some(0xB1)
    case '°' => Some(0xB2)
    case '`' => Some(0xB3)
    case '´' => Some(0xB4)
    case '×' => Some(0xB7)
    case '÷' => Some(0xB8)
    case '≤' => Some(0xB9)
    case '≥' => Some(0xBA)
    case '≪' => Some(0xBB)
    case '≫' => Some(0xBC)
    case '≠' => Some(0xBD)
    case '√' => Some(0xBE)
    case '⁻' => Some(0xBF)
    case '∞' => Some(0xC2)
    case '◸' => Some(0xC3)
    case '↲' => Some(0xC4)
    case '↑' => Some(0xC5)
    case '↓' => Some(0xC6)
    case '→' => Some(0xC7)
    case '←' => Some(0xC8)
    case '⌜' => Some(0xC9)
    case '⌝' => Some(0xCA)
    case '⌞' => Some(0xCB)
    case '⌟' => Some(0xCC)
    case '•' => Some(0xCD)
    case '®' => Some(0xCE)
    case '©' => Some(0xCF)
    case '™' => Some(0xD0)
    case _ => None
  }

  /** The entry for a key that two parts of a dictionary literal both define: the later one. */
  function Later(earlier: Option<int>, later: Option<int>): Option<int>
  {
    if later.Some? then later else earlier
  }

  /** The code point of `c` in the corrected table, if it has one. */
  function Lookup(c: char): (r: Option<int>)
    ensures r.Some? ==> 0x10 <= r.value <= 0xD0
  {
    Later(Later(Later(Later(Later(Codes10To2F(c), Codes30To4F(c)), Codes50To6F(c)), Codes70To8F(c)),
      Codes90ToAF(c)), CodesB0ToFF(c))
  }

  /** The key the source writes for code 0xA0: a small `a` followed by a combining acute accent. */
  const DecomposedAcuteA: string := "a\U{0301}"

  /**
   * The table as the source writes it, keyed by strings, apart from the
   * empty-string keys. It differs from the corrected table in one entry only:
   * its key for code 0xA0 is the two-character DecomposedAcuteA, where the
   * corrected table has the single character U+00E1.
   */
  function WrittenLookup(key: string): (r: Option<int>)
    ensures r.Some? ==> 0x10 <= r.value <= 0xD0
    ensures r.Some? ==> |key| == 1 || key == DecomposedAcuteA
    ensures r == Some(0xA0) <==> key == DecomposedAcuteA
  {
    if key == DecomposedAcuteA then Some(0xA0)
    else if |key| == 1 && key[0] != '\U{00E1}' then Lookup(key[0])
    else None
  }

  /** `_translate_char` over the table as written. */
  function TranslateCharAsWritten(ch: string): (r: Result<int, Error>)
    ensures |ch| != 1 ==> r == Failure(ValueError(LengthMessage))
    ensures |ch| == 1 ==> (r.Success? <==> WrittenLookup(ch).Some?)
    ensures |ch| == 1 && r.Failure? ==> r.error == KeyError(ch)
    ensures r.Success? ==> WrittenLookup(ch) == Some(r.value) && 0x10 <= r.value <= 0xD0
  {
    if |ch| != 1 then Failure(ValueError(LengthMessage))
    else match WrittenLookup(ch)
      case Some(code) => Success(code)
      case None => Failure(KeyError(ch))
  }

  /** In the corrected table only U+00E1 has code 0xA0. */
  lemma OnlyAcuteAHasA0(c: char)
    ensures Lookup(c) == Some(0xA0) <==> c == '\U{00E1}'
  {
    if Codes90ToAF(c) == Some(0xA0) {
      assert c == '\U{00E1}';
    }
  }

  /**
   * As written, no argument reaches code 0xA0: the key that holds it is two
   * characters long and so fails the length check, and the one-character
   * spelling of the letter is not a key at all.
   */
  lemma AsWrittenA0Unreachable(ch: string)
    ensures TranslateCharAsWritten(ch) != Success(0xA0)
    ensures TranslateCharAsWritten(DecomposedAcuteA) == Failure(ValueError(LengthMessage))
    ensures TranslateCharAsWritten("\U{00E1}") == Failure(KeyError("\U{00E1}"))
  {
    if |ch| == 1 && ch[0] != '\U{00E1}' {
      OnlyAcuteAHasA0(ch[0]);
    }
  }

  /**
   * The corrected table reaches code 0xA0 with the one-character letter, and
   * agrees with the table as written on every other argument.
   */
  lemma CorrectedA0Reachable(ch: string)
    ensures TranslateChar("\U{00E1}") == Success(0xA0)
    ensures ch != "\U{00E1}" ==> TranslateCharAsWritten(ch) == TranslateChar(ch)
  {
    if |ch| == 1 && ch != "\U{00E1}" {
      assert ch[0] != '\U{00E1}';
    }
  }

  /** '=' is written twice, for 0x1C and then for 0x3D; the later value holds. */
  lemma EqualsSignKeepsLastValue()
    ensures Codes10To2F('=') == Some(0x1C) && Lookup('=') == Some(0x3D)
  {
  }

  /** '~' is written twice, for 0x1D and then for 0x7E; the later value holds. */
  lemma TildeKeepsLastValue()
    ensures Codes10To2F('~') == Some(0x1D) && Lookup('~') == Some(0x7E)
  {
  }

  /** '`' is written twice, for 0x60 and then for 0xB3; the later value holds. */
  lemma BacktickKeepsLastValue()
    ensures Codes50To6F('`') == Some(0x60) && Lookup('`') == Some(0xB3)
  {
  }

  /**
   * The codes whose only key is the empty string, and the gaps of the
   * highest block, are reached by no character.
   */
  lemma PlaceholderCodesUnreachable(c: char)
    ensures Lookup(c).Some? ==>
      Lookup(c).value !in {0x12, 0x13, 0x14, 0x15, 0x16, 0x17, 0x18, 0x19, 0x1A, 0xB0, 0xB5, 0xB6, 0xC0, 0xC1}
  {
  }

  /** The three codes whose keys are written again later are reached by no character. */
  lemma ShadowedCodesUnreachable(c: char)
    ensures Lookup(c) != Some(0x1C) && Lookup(c) != Some(0x1D) && Lookup(c) != Some(0x60)
  {
  }

  /** `_translate_char`: look up a one-character string. */
  function TranslateChar(ch: string): (r: Result<int, Error>)
    ensures |ch| != 1 ==> r == Failure(ValueError(LengthMessage))
    ensures |ch| == 1 ==> (r.Success? <==> Lookup(ch[0]).Some?)
    ensures |ch| == 1 && r.Failure? ==> r.error == KeyError(ch)
    ensures r.Success? ==> r.value == Lookup(ch[0]).value && 0x10 <= r.value <= 0xD0
  {
    if |ch| != 1 then Failure(ValueError(LengthMessage))
    else match Lookup(ch[0])
      case Some(code) => Success(code)
      case None => Failure(KeyError(ch))
  }

  /** `_translate_string`: translate each character in order; the first failure is raised. */
  function TranslateString(s: string): (r: Result<seq<int>, Error>)
    ensures r.Success? ==> |r.value| == |s|
  {
    if s == [] then Success([])
    else match TranslateChar([s[0]])
      case Failure(e) => Failure(e)
      case Success(code) =>
        match TranslateString(s[1..])
        case Failure(e) => Failure(e)
        case Success(codes) => Success([code] + codes)
  }

  /** Every character of `s` has an entry in the table. */
  ghost predicate AllMapped(s: string)
  {
    forall i | 0 <= i < |s| :: Lookup(s[i]).Some?
  }

  /**
   * A translation succeeds exactly when every character is in the table, and
   * then its element `i` is the code of character `i`; otherwise it fails with
   * the lookup error of the first character that is not in the table.
   */
  lemma {:induction false} TranslateStringElementwise(s: string)
    ensures TranslateString(s).Success? <==> AllMapped(s)
    ensures TranslateString(s).Success? ==>
      && |TranslateString(s).value| == |s|
      && forall i | 0 <= i < |s| :: TranslateString(s).value[i] == Lookup(s[i]).value
    ensures TranslateString(s).Failure? ==>
      exists i | 0 <= i < |s| ::
        && Lookup(s[i]).None?
        && AllMapped(s[..i])
        && TranslateString(s).error == KeyError([s[i]])
  {
    if s != [] {
      TranslateStringElementwise(s[1..]);
      if Lookup(s[0]).None? {
        assert s[..0] == [];
        assert TranslateString(s).error == KeyError([s[0]]);
      } else if TranslateString(s[1..]).Failure? {
        var j :| 0 <= j < |s[1..]| && Lookup(s[1..][j]).None? && AllMapped(s[1..][..j])
          && TranslateString(s[1..]).error == KeyError([s[1..][j]]);
        assert s[1..][..j] == s[1..j + 1];
        assert AllMapped(s[..j + 1]);
      }
    }
  }

  /** Every code a translation returns is a valid data byte. */
  lemma TranslatedCodesAreBytes(s: string)
    requires TranslateString(s).Success?
    ensures forall i | 0 <= i < |TranslateString(s).value| :: 0 <= TranslateString(s).value[i] <= 0xFF
  {
    TranslateStringElementwise(s);
  }

  /** `_translate_string` over the table as written. */
  function TranslateStringAsWritten(s: string): (r: Result<seq<int>, Error>)
    ensures r.Success? ==> |r.value| == |s|
  {
    if s == [] then Success([])
    else match TranslateCharAsWritten([s[0]])
      case Failure(e) => Failure(e)
      case Success(code) =>
        match TranslateStringAsWritten(s[1..])
        case Failure(e) => Failure(e)
        case Success(codes) => Success([code] + codes)
  }

  /**
   * The string translation over the table as written agrees with the
   * corrected one on every string without U+00E1, and fails on every string
   * with it, where the corrected one may succeed.
   */
  lemma {:induction false} StringAsWrittenAgrees(s: string)
    ensures '\U{00E1}' !in s ==> TranslateStringAsWritten(s) == TranslateString(s)
    ensures '\U{00E1}' in s ==> TranslateStringAsWritten(s).Failure?
  {
    if s != [] {
      StringAsWrittenAgrees(s[1..]);
      assert s == [s[0]] + s[1..];
      if s[0] == '\U{00E1}' {
        assert TranslateCharAsWritten([s[0]]) == Failure(KeyError([s[0]]));
      } else {
        CorrectedA0Reachable([s[0]]);
        assert '\U{00E1}' in s <==> '\U{00E1}' in s[1..];
      }
    }
  }

  /** A character the table as written translates: in the corrected table and not U+00E1. */
  ghost predicate WrittenKey(c: char)
  {
    c != '\U{00E1}' && Lookup(c).Some?
  }

  /**
   * Over the table as written, a failing translation raises the KeyError of
   * its first character that is U+00E1 or not in the corrected table, every
   * earlier character being translatable.
   */
  lemma {:induction false} StringAsWrittenFirstFailure(s: string)
    ensures TranslateStringAsWritten(s).Failure? ==>
      exists i | 0 <= i < |s| ::
        && !WrittenKey(s[i])
        && (forall j | 0 <= j < i :: WrittenKey(s[j]))
        && TranslateStringAsWritten(s).error == KeyError([s[i]])
  {
    if s != [] {
      if !WrittenKey(s[0]) {
        if s[0] != '\U{00E1}' {
          CorrectedA0Reachable([s[0]]);
        }
        assert TranslateCharAsWritten([s[0]]) == Failure(KeyError([s[0]]));
      } else {
        CorrectedA0Reachable([s[0]]);
        StringAsWrittenFirstFailure(s[1..]);
        if TranslateStringAsWritten(s).Failure? {
          var t := s[1..];
          var j :| 0 <= j < |t| && !WrittenKey(t[j])
            && (forall k | 0 <= k < j :: WrittenKey(t[k]))
            && TranslateStringAsWritten(t).error == KeyError([t[j]]);
          assert s[j + 1] == t[j];
          forall k | 0 <= k < j + 1
            ensures WrittenKey(s[k])
          {
            if k > 0 { assert s[k] == t[k - 1]; }
          }
        }
      }
    }
  }
}
