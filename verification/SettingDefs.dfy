/** The settings catalogue: what a setting accepts and how its stored text is read. */
module SettingDefs {
  import opened Common

  datatype Kind = Enum(options: seq<string>) | Bool | KeyBinding | Int(range: Option<(int, int)>)
  datatype Status = Working | Disabled | Hidden
  datatype Def = Def(kind: Kind, default: string, status: Status, category: string)

  /** A value as a caller sends it. */
  datatype Arg = Absent | Truth(b: bool) | Text(s: string)

  /** A value as the application reads it. */
  datatype Val = Flag(on: bool) | Raw(s: string)

  function Lower(s: string): string {
    seq(|s|, i requires 0 <= i < |s| => if 'A' <= s[i] <= 'Z' then ((s[i] as int) + 32) as char else s[i])
  }

  function Digits(s: string): Option<int> {
    if s == [] then Some(0)
    else
      var front, c := Digits(s[..|s| - 1]), s[|s| - 1];
      if front.Some? && '0' <= c <= '9' then Some(10 * front.value + (c as int - '0' as int)) else None
  }

  function ParseInt(s: string): Option<int> {
    if s == [] then None
    else if s[0] == '-' || s[0] == '+' then
      if |s| == 1 then None
      else match Digits(s[1..])
        case None => None
        case Some(n) => Some(if s[0] == '-' then -n else n)
    else match Digits(s)
      case None => None
      case Some(n) => Some(n)
  }

  predicate ValidText(d: Def, v: string) {
    match d.kind
    case Bool => Lower(v) in {"true", "false", "1", "0"}
    case KeyBinding => |v| <= 24
    case Int(range) =>
      var n := ParseInt(v);
      n.Some? && (range.Some? ==> range.value.0 <= n.value <= range.value.1)
    case Enum(options) => options == [] || v in options
  }

  /** The text that is validated is not always the text that is stored. */
  function Checked(a: Arg): string {
    match a
    case Absent => ""
    case Truth(b) => if b then "True" else "False"
    case Text(s) => s
  }

  function Stored(a: Arg): string {
    match a
    case Absent => "None"
    case Truth(b) => if b then "true" else "false"
    case Text(s) => s
  }

  function Coerce(d: Def, raw: string): Val {
    if d.kind.Bool? then Flag(Lower(raw) in {"true", "1", "yes"}) else Raw(raw)
  }

  /** An accepted boolean is read back as the boolean that was sent, in either spelling;
      a missing value is never accepted for one. */
  lemma BooleansReadBack(d: Def, a: Arg)
    requires d.kind.Bool? && ValidText(d, Checked(a))
    ensures ValidText(d, Stored(a)) && !a.Absent?
    ensures a.Truth? ==> Coerce(d, Stored(a)) == Flag(a.b)
    ensures a.Text? ==> Coerce(d, Stored(a)) == Flag(Lower(a.s) in {"true", "1"})
  {
    assert Lower("True") == "true" && Lower("False") == "false";
    assert Lower("true") == "true" && Lower("false") == "false";
    assert Lower("") == "";
  }

  /** Storing an accepted value can still fail its own check only for an option list that
      holds a capitalised truth word without the lower-case one, or for a missing value
      that an option list allows as empty text but not as "None". */
  lemma StoredFailsExactlyWhen(d: Def, a: Arg)
    requires ValidText(d, Checked(a))
    ensures !ValidText(d, Stored(a)) <==>
      d.kind.Enum? && d.kind.options != [] && !a.Text? && Stored(a) !in d.kind.options
  {
    if d.kind.Bool? { BooleansReadBack(d, a); }
    if d.kind.Int? {
      assert Digits("True") == None by { NotANumber("True"); }
      assert Digits("False") == None by { NotANumber("False"); }
    }
  }

  lemma {:induction false} NotANumber(s: string)
    requires s != [] && !('0' <= s[0] <= '9')
    ensures Digits(s) == None
  {
    if |s| > 1 { NotANumber(s[..|s| - 1]); }
  }

  // ---- texts and numbers -------------------------------------------------------------------

  function DigitOf(n: nat): char
    requires n < 10
  {
    ('0' as int + n) as char
  }

  /** How a number is written. */
  function Decimal(n: nat): (s: string)
    ensures s != [] && '0' <= s[0] <= '9'
  {
    if n < 10 then [DigitOf(n)] else Decimal(n / 10) + [DigitOf(n % 10)]
  }

  lemma {:induction false} DigitsOfDecimal(n: nat)
    ensures Digits(Decimal(n)) == Some(n)
  {
    if n < 10 {
      assert Decimal(n)[..0] == [];
    } else {
      DigitsOfDecimal(n / 10);
      assert Decimal(n)[..|Decimal(n)| - 1] == Decimal(n / 10);
    }
  }

  /** A written number reads as itself, with its sign in front or none; what holds anything
      but digits after the sign is no number. */
  lemma NumbersReadBack(n: nat, s: string)
    ensures ParseInt(Decimal(n)) == Some(n) && ParseInt("+" + Decimal(n)) == Some(n)
    ensures ParseInt("-" + Decimal(n)) == Some(0 - n as int)
    ensures (exists i :: 1 <= i < |s| && !('0' <= s[i] <= '9')) ==> ParseInt(s) == None
    ensures ParseInt("") == None && ParseInt("+") == None && ParseInt("-") == None
  {
    DigitsOfDecimal(n);
    assert ("+" + Decimal(n))[1..] == Decimal(n) && ("-" + Decimal(n))[1..] == Decimal(n);
    if i :| 1 <= i < |s| && !('0' <= s[i] <= '9') {
      NoDigits(s, i);
      NoDigits(s[1..], i - 1);
    }
  }

  lemma {:induction false} NoDigits(s: string, i: nat)
    requires i < |s| && !('0' <= s[i] <= '9')
    ensures Digits(s) == None
  {
    if i < |s| - 1 { NoDigits(s[..|s| - 1], i); }
  }

  /** Equal but for the case of ASCII letters, the second in lower case. */
  predicate SameWord(s: string, word: string) {
    |s| == |word| && forall i :: 0 <= i < |s| ==>
      s[i] == word[i] || ('A' <= s[i] <= 'Z' && word[i] as int == s[i] as int - 'A' as int + 'a' as int)
  }

  lemma LowerIsWord(s: string, word: string)
    requires forall i :: 0 <= i < |word| ==> !('A' <= word[i] <= 'Z')
    ensures Lower(s) == word <==> SameWord(s, word)
  {
    if SameWord(s, word) { assert Lower(s) == word; }
    if Lower(s) == word {
      forall i | 0 <= i < |s|
        ensures s[i] == word[i] || ('A' <= s[i] <= 'Z' && word[i] as int == s[i] as int - 'A' as int + 'a' as int)
      {
        assert Lower(s)[i] == word[i];
      }
    }
  }

  /** What each kind of setting accepts, and how its text is read. */
  lemma KindsMean(d: Def, v: string)
    ensures d.kind.Bool? ==> (ValidText(d, v) <==> SameWord(v, "true") || SameWord(v, "false") || v == "1" || v == "0")
    ensures d.kind.KeyBinding? ==> (ValidText(d, v) <==> |v| < 25)
    ensures d.kind.Int? ==>
      (ValidText(d, v) <==> exists n :: ParseInt(v) == Some(n)
                              && (d.kind.range.Some? ==> d.kind.range.value.0 <= n && n <= d.kind.range.value.1))
    ensures d.kind.Enum? ==>
      (ValidText(d, v) <==> d.kind.options == [] || exists i :: 0 <= i < |d.kind.options| && d.kind.options[i] == v)
    ensures d.kind.Bool? ==> Coerce(d, v) == Flag(SameWord(v, "true") || v == "1" || SameWord(v, "yes"))
    ensures !d.kind.Bool? ==> Coerce(d, v) == Raw(v)
  {
    LowerIsWord(v, "true");
    LowerIsWord(v, "false");
    LowerIsWord(v, "yes");
    LowerIsWord(v, "1");
    LowerIsWord(v, "0");
    hide Lower, ParseInt;
  }

  /** A text is checked and stored as sent; a truth value is checked capitalised and stored
      in lower case; a missing value is checked as empty and stored as "None". */
  lemma ArgTexts(a: Arg)
    ensures a.Text? ==> Checked(a) == a.s && Stored(a) == a.s
    ensures a.Truth? ==> SameWord(Checked(a), Stored(a)) && Stored(a) == (if a.b then "true" else "false")
    ensures a.Truth? ==> Checked(a)[0] == (if a.b then 'T' else 'F')
    ensures a.Absent? ==> Checked(a) == "" && Stored(a) == "None"
  {
  }
}
