/**
 Scalars as the first-time printer writes them, and as a reader of YAML 1.2.2 resolves them
 (single-quoted style, section 7.3.2; plain style, section 7.3.3; core schema, section 10.3.2).
 */
module YamlScalars {
  import opened Options
  import opened Text
  import opened YamlFolding

  datatype Value =
    | Null
    | Bool(flag: bool)
    | Number(digits: string)
    | Str(text: string)
    | Arr(items: seq<Value>)
    | Obj(fields: seq<Field>)
    | Invalid

  datatype Field = Field(key: string, value: Value)

  // ---- Numbers ---------------------------------------------------------------------------------------

  function DropSign(s: string): string {
    if s != "" && (s[0] == '+' || s[0] == '-') then s[1..] else s
  }

  function SkipDigits(s: string): string {
    if s != "" && IsDigit(s[0]) then SkipDigits(s[1..]) else s
  }

  predicate AllDigits(s: string) {
    s != "" && SkipDigits(s) == ""
  }

  // A decimal number with optional sign, fraction and exponent, at least one digit before the exponent.
  predicate IsDecimal(s: string) {
    var t := DropSign(s);
    var u := SkipDigits(t);
    var w := if u != "" && u[0] == '.' then SkipDigits(u[1..]) else u;
    var digits := |t| - |w| - if u != "" && u[0] == '.' then 1 else 0;
    digits > 0 && (w == "" || ((w[0] == 'e' || w[0] == 'E') && AllDigits(DropSign(w[1..]))))
  }

  function LowerChar(c: char): char {
    if 'A' <= c <= 'Z' then (c as int + 32) as char else c
  }

  function Lower(s: string): string {
    seq(|s|, i requires 0 <= i < |s| => LowerChar(s[i]))
  }

  // What the standard library parses as a 64-bit float; every 64-bit integer is among these.
  predicate ParsesAsFloat(s: string) {
    var word := Lower(DropSign(s));
    IsDecimal(s) || word == "inf" || word == "infinity" || word == "nan"
  }

  // Numbers of the core schema that the standard library does not parse.
  predicate IsCoreOnlyNumber(s: string) {
    || (|s| > 2 && s[..2] == "0o" && forall i :: 2 <= i < |s| ==> '0' <= s[i] <= '7')
    || (|s| > 2 && s[..2] == "0x"
        && forall i :: 2 <= i < |s| ==> IsDigit(s[i]) || 'a' <= s[i] <= 'f' || 'A' <= s[i] <= 'F')
    || DropSign(s) == ".inf" || DropSign(s) == ".Inf" || DropSign(s) == ".INF"
    || s == ".nan" || s == ".NaN" || s == ".NAN"
  }

  // ---- Printing --------------------------------------------------------------------------------------

  predicate IsReserved(word: string) {
    || word == "true" || word == "false" || word == "yes" || word == "no" || word == "on" || word == "off"
    || word == "null" || word == "~"
  }

  predicate IsIndicator(c: char) {
    || c == '-' || c == '?' || c == '[' || c == ']' || c == '{' || c == '}' || c == ',' || c == '>' || c == '<'
    || c == '&' || c == '*' || c == '!' || c == '|' || c == '\'' || c == '"' || c == '%' || c == '@' || c == '`'
    || c == '#' || c == ' '
  }

  predicate Contains(s: string, a: char, b: char) {
    exists i :: 0 <= i < |s| - 1 && s[i] == a && s[i + 1] == b
  }

  predicate NeedsQuoting(s: string) {
    || s == ""
    || IsReserved(Lower(s))
    || ParsesAsFloat(s)
    || IsIndicator(s[0])
    || s[|s| - 1] == ' ' || '\n' in s || Contains(s, ':', ' ') || Contains(s, ' ', '#')
    || s[|s| - 1] == ':'
  }

  function Doubled(s: string): string {
    if s == "" then "" else (if s[0] == '\'' then "''" else [s[0]]) + Doubled(s[1..])
  }

  function Quoted(s: string): string {
    "'" + Doubled(s) + "'"
  }

  function EmitScalar(v: Value): string {
    match v
    case Null => "null"
    case Bool(b) => if b then "true" else "false"
    case Number(n) => n
    case Str(s) => if NeedsQuoting(s) then Quoted(s) else s
    case Arr(_) => "[]"
    case Obj(_) => "{}"
    case Invalid => ""
  }

  // ---- Reading ---------------------------------------------------------------------------------------

  predicate IsNullWord(s: string) {
    s == "null" || s == "Null" || s == "NULL" || s == "~"
  }

  predicate IsTrueWord(s: string) {
    s == "true" || s == "True" || s == "TRUE"
  }

  predicate IsFalseWord(s: string) {
    s == "false" || s == "False" || s == "FALSE"
  }

  function Resolve(s: string): Value {
    if s == "" || IsNullWord(s) then Null
    else if IsTrueWord(s) then Bool(true)
    else if IsFalseWord(s) then Bool(false)
    else if IsDecimal(s) || IsCoreOnlyNumber(s) then Number(s)
    else Str(s)
  }

  // The rest of a quoted scalar: a doubled quote is one quote, a single one ends the text.
  function Unquoted(s: string): Option<string>
    decreases |s|
  {
    if s == "" then None
    else if s[0] != '\'' then
      match Unquoted(s[1..])
      case None => None
      case Some(r) => Some([s[0]] + r)
    else if s == "'" then Some("")
    else if s[1] != '\'' then None
    else
      match Unquoted(s[2..])
      case None => None
      case Some(r) => Some("'" + r)
  }

  // What quoted style may hold on one line (sections 5.1 and 7.3.2).
  predicate IsQuotedChar(c: char) {
    c == '\t' || c >= ' '
  }

  // The printable characters of section 5.1, without tabs, line breaks and the byte order mark.
  predicate IsTextChar(c: char) {
    || ' ' <= c <= '~' || c == '\U{85}'
    || (c >= '\U{A0}' && c != '\U{FEFF}' && c != '\U{FFFE}' && c != '\U{FFFF}')
  }

  // The text stops being one plain scalar: it starts or ends blank, a colon or a comment ends it.
  predicate LeavesPlain(s: string)
    requires s != ""
  {
    || IsBlank(s[0]) || IsBlank(s[|s| - 1]) || s[|s| - 1] == ':'
    || Contains(s, ':', ' ') || Contains(s, ':', '\t') || Contains(s, ' ', '#') || Contains(s, '\t', '#')
  }

  // The indicators that no plain scalar starts with; three may stand before more text (sections 5.3
  // and 7.3.3).
  predicate StartsNoPlain(s: string)
    requires s != ""
  {
    var c := s[0];
    || c == ',' || c == '[' || c == ']' || c == '{' || c == '}' || c == '#' || c == '&' || c == '*' || c == '!'
    || c == '|' || c == '>' || c == '\'' || c == '"' || c == '%' || c == '@' || c == '`'
    || ((c == '-' || c == '?' || c == ':') && (|s| == 1 || IsBlank(s[1])))
  }

  function ReadQuoted(s: string): Value {
    match Unquoted(s)
    case None => Invalid
    case Some(r) =>
      if exists i :: 0 <= i < |r| && !IsQuotedChar(r[i]) && !IsBreak(r[i]) then Invalid else Str(Folded(r))
  }

  function ReadScalar(s: string): Value {
    if s == "" then Null
    else if s[0] == '\'' then ReadQuoted(s[1..])
    else if s == "{}" then Obj([])
    else if s == "[]" then Arr([])
    else if HasBreak(s) then Resolve(Folded(s))
    else if exists i :: 0 <= i < |s| && !IsTextChar(s[i]) && s[i] != '\t' then Invalid
    else if LeavesPlain(s) || StartsNoPlain(s) then Invalid
    else Resolve(s)
  }

  // ---- Scalars read back --------------------------------------------------------------------------------

  lemma {:induction false} UnquotedDoubled(s: string)
    ensures Unquoted(Doubled(s) + "'") == Some(s)
  {
    if s != "" {
      UnquotedDoubled(s[1..]);
      var rest := Doubled(s[1..]) + "'";
      if s[0] == '\'' {
        assert Doubled(s) + "'" == "''" + rest;
        assert ("''" + rest)[2..] == rest;
      } else {
        assert Doubled(s) + "'" == [s[0]] + rest;
        assert ([s[0]] + rest)[1..] == rest;
      }
      assert s == [s[0]] + s[1..];
    }
  }

  lemma QuotedReads(s: string)
    ensures ReadScalar(Quoted(s)) ==
              if forall i :: 0 <= i < |s| ==> IsQuotedChar(s[i]) || IsBreak(s[i]) then Str(Folded(s)) else Invalid
  {
    UnquotedDoubled(s);
    assert Quoted(s)[1..] == Doubled(s) + "'";
    assert ReadScalar(Quoted(s)) == ReadQuoted(Quoted(s)[1..]);
  }

  // Quoted text reads back exactly when it holds no line break and no control character but tabs.
  lemma QuotedReadsBack(s: string)
    ensures ReadScalar(Quoted(s)) == Str(s) <==> forall i :: 0 <= i < |s| ==> IsQuotedChar(s[i])
  {
    QuotedReads(s);
    BrokenTextIsLost(s);
  }

  // The texts that survive being printed and read. Bare text must also not be a core-schema
  // number in a notation that the standard library does not parse, such as 0x1F or .inf.
  predicate StringSafe(s: string) {
    if NeedsQuoting(s) then forall i :: 0 <= i < |s| ==> IsQuotedChar(s[i])
    else StaysPlain(s) && !IsCoreOnlyNumber(s)
  }

  // Bare text that no character and no tab cuts short.
  predicate StaysPlain(s: string)
    requires s != ""
  {
    && (forall i :: 0 <= i < |s| ==> IsTextChar(s[i]) || s[i] == '\t')
    && s[0] != '\t' && s[|s| - 1] != '\t' && !Contains(s, ':', '\t') && !Contains(s, '\t', '#')
  }

  lemma BareReads(s: string)
    requires !NeedsQuoting(s)
    ensures ReadScalar(s) ==
              if HasBreak(s) then Resolve(Folded(s)) else if StaysPlain(s) then Resolve(s) else Invalid
  {
    assert s != "{}" && s != "[]" by { assert "{}"[0] == '{' && "[]"[0] == '['; }
  }

  // For every text: it survives exactly when it is safe.
  lemma StringSurvives(s: string)
    ensures ReadScalar(EmitScalar(Str(s))) == Str(s) <==> StringSafe(s)
  {
    if NeedsQuoting(s) { QuotedReadsBack(s); } else { BareSurvives(s); }
  }

  lemma BareSurvives(s: string)
    requires !NeedsQuoting(s)
    ensures ReadScalar(s) == Str(s) <==> StringSafe(s)
  {
    BareReads(s);
    if HasBreak(s) {
      BreakIsNoText(s);
      BrokenTextIsLost(s);
      ResolvesToItself(Folded(s), s);
    } else {
      PlainResolves(s);
    }
  }

  lemma ResolvesToItself(t: string, s: string)
    ensures Resolve(t) == Str(s) ==> t == s
  {
  }

  lemma PlainResolves(s: string)
    requires !NeedsQuoting(s)
    ensures Resolve(s) == if IsCoreOnlyNumber(s) then Number(s) else Str(s)
  {
    ReservedFold(s);
  }

  lemma BreakIsNoText(s: string)
    ensures HasBreak(s) ==> exists i :: 0 <= i < |s| && !IsTextChar(s[i]) && s[i] != '\t'
  {
    if HasBreak(s) {
      var i :| 0 <= i < |s| && IsBreak(s[i]);
      assert !IsTextChar(s[i]) && s[i] != '\t';
    }
  }

  predicate IsText(s: string) {
    forall i :: 0 <= i < |s| ==> IsTextChar(s[i])
  }

  // What reading makes of a printed text.
  function StringRead(s: string): Value {
    if NeedsQuoting(s) then
      if forall i :: 0 <= i < |s| ==> IsQuotedChar(s[i]) || IsBreak(s[i]) then Str(Folded(s)) else Invalid
    else if HasBreak(s) then Resolve(Folded(s))
    else if StaysPlain(s) then Resolve(s)
    else Invalid
  }

  lemma StringReadsAs(s: string)
    ensures ReadScalar(EmitScalar(Str(s))) == StringRead(s)
    ensures StringRead(s) == Str(s) <==> StringSafe(s)
  {
    StringSurvives(s);
    if NeedsQuoting(s) { QuotedReads(s); } else { BareReads(s); }
  }

  lemma ReservedFold(s: string)
    requires !IsReserved(Lower(s))
    ensures !IsNullWord(s) && !IsTrueWord(s) && !IsFalseWord(s)
  {
    assert Lower("null") == "null" && Lower("Null") == "null" && Lower("NULL") == "null" && Lower("~") == "~";
    assert Lower("true") == "true" && Lower("True") == "true" && Lower("TRUE") == "true";
    assert Lower("false") == "false" && Lower("False") == "false" && Lower("FALSE") == "false";
  }

  // Such strings exist, and are printed bare.
  lemma HexStringIsLost()
    ensures IsCoreOnlyNumber("0x1F") && !NeedsQuoting("0x1F")
    ensures ReadScalar(EmitScalar(Str("0x1F"))) == Number("0x1F")
  {
    var s := "0x1F";
    assert s[..2] == "0x";
    assert IsCoreOnlyNumber(s);
    HexIsNoDecimal();
    HexIsBare();
    LettersStayPlain(s);
    BareReads(s);
    PlainResolves(s);
  }

  lemma HexIsNoDecimal()
    ensures !IsDecimal("0x1F")
  {
    var s := "0x1F";
    assert DropSign(s) == s && s[1..] == "x1F" && SkipDigits(s) == "x1F";
  }

  lemma HexIsBare()
    ensures IsDecimal("0x1F") || !NeedsQuoting("0x1F")
  {
    var s := "0x1F";
    assert Lower(s)[0] == '0' && |Lower(s)| == 4 && DropSign(s) == s;
    assert "null"[0] == 'n' && "true"[0] == 't';
  }

  lemma LettersStayPlain(s: string)
    requires s != "" && forall i :: 0 <= i < |s| ==> IsDigit(s[i]) || 'A' <= s[i] <= 'Z' || 'a' <= s[i] <= 'z'
    ensures StaysPlain(s) && !HasBreak(s)
  {
  }

  predicate IsScalar(v: Value) {
    v.Null? || v.Bool? || v.Number? || v.Str?
  }

  // A number text as the JSON printer writes it, or any text.
  predicate GoodScalar(v: Value) {
    IsScalar(v) && (v.Number? ==> IsDecimal(v.digits))
  }

  function ScalarRead(v: Value): Value {
    if v.Str? then StringRead(v.text) else v
  }

  lemma {:induction false} SkipDigitsShape(s: string)
    ensures |SkipDigits(s)| <= |s| && s[|s| - |SkipDigits(s)|..] == SkipDigits(s)
    ensures forall i :: 0 <= i < |s| - |SkipDigits(s)| ==> IsDigit(s[i])
  {
    if s != "" && IsDigit(s[0]) { SkipDigitsShape(s[1..]); }
  }

  predicate NumberChar(c: char) {
    IsDigit(c) || c == '+' || c == '-' || c == '.' || c == 'e' || c == 'E'
  }

  predicate NumberText(s: string) {
    forall i :: 0 <= i < |s| ==> NumberChar(s[i])
  }

  lemma DigitsThen(s: string)
    requires NumberText(SkipDigits(s))
    ensures NumberText(s)
  {
    SkipDigitsShape(s);
    var n := |s| - |SkipDigits(s)|;
    assert forall i :: n <= i < |s| ==> s[i] == SkipDigits(s)[i - n];
  }

  lemma CharThen(s: string)
    requires s != "" && NumberChar(s[0]) && NumberText(s[1..])
    ensures NumberText(s)
  {
  }

  lemma SignThen(s: string)
    requires NumberText(DropSign(s))
    ensures NumberText(s)
  {
  }

  // A number is written in these characters only, so it is never mistaken for anything else.
  lemma DecimalChars(s: string)
    requires IsDecimal(s)
    ensures s != "" && NumberText(s)
  {
    var t := DropSign(s);
    var u := SkipDigits(t);
    var dot := u != "" && u[0] == '.';
    var w := if dot then SkipDigits(u[1..]) else u;
    if w != "" {
      DigitsThen(DropSign(w[1..]));
      SignThen(w[1..]);
      CharThen(w);
    }
    if dot {
      DigitsThen(u[1..]);
      CharThen(u);
    }
    DigitsThen(t);
    SignThen(s);
  }

  // ---- What counts as a number, and as a word -------------------------------------------------------------

  predicate DigitsOnly(s: string) {
    forall i :: 0 <= i < |s| ==> IsDigit(s[i])
  }

  predicate IsSign(s: string) {
    s == "" || s == "+" || s == "-"
  }

  // A number of the core schema, taken apart: sign, digits, point, digits, exponent.
  predicate DecimalForm(s: string, sign: string, whole: string, point: string, fraction: string, exponent: string) {
    && s == sign + (whole + (point + (fraction + exponent)))
    && IsSign(sign) && DigitsOnly(whole) && DigitsOnly(fraction)
    && (point == "." || (point == "" && fraction == "")) && whole + fraction != ""
    && (exponent == "" || IsExponent(exponent))
  }

  predicate IsExponent(s: string) {
    |s| > 1 && (s[0] == 'e' || s[0] == 'E')
    && (DigitsOnly(s[1..]) || (|s| > 2 && (s[1] == '+' || s[1] == '-') && DigitsOnly(s[2..])))
  }

  lemma {:induction false} SkipsDigits(digits: string, rest: string)
    requires DigitsOnly(digits) && (rest != "" ==> !IsDigit(rest[0]))
    ensures SkipDigits(digits + rest) == rest
  {
    if digits == "" {
      assert digits + rest == rest;
    } else {
      assert (digits + rest)[1..] == digits[1..] + rest;
      SkipsDigits(digits[1..], rest);
    }
  }

  lemma {:induction false} SkipStops(s: string)
    ensures SkipDigits(s) != "" ==> !IsDigit(SkipDigits(s)[0])
  {
    if s != "" && IsDigit(s[0]) { SkipStops(s[1..]); }
  }

  lemma AllDigitsExactly(s: string)
    ensures AllDigits(s) <==> s != "" && DigitsOnly(s)
  {
    SkipDigitsShape(s);
    if DigitsOnly(s) {
      assert s + "" == s;
      SkipsDigits(s, "");
    }
  }

  lemma ExponentExactly(s: string)
    requires s != ""
    ensures IsExponent(s) <==> (s[0] == 'e' || s[0] == 'E') && AllDigits(DropSign(s[1..]))
  {
    AllDigitsExactly(DropSign(s[1..]));
    if |s| > 1 && (s[1] == '+' || s[1] == '-') { assert s[1..][1..] == s[2..]; }
  }

  // The number texts are those of the core schema's form, no more and no less.
  lemma DecimalHasForm(s: string)
    returns (sign: string, whole: string, point: string, fraction: string, exponent: string)
    requires IsDecimal(s)
    ensures DecimalForm(s, sign, whole, point, fraction, exponent)
  {
    var t := DropSign(s);
    var u := SkipDigits(t);
    SkipDigitsShape(t);
    sign, whole := s[..|s| - |t|], t[..|t| - |u|];
    point, fraction, exponent := AfterDigits(u);
    assert s == sign + t && t == whole + u;
    if exponent != "" { ExponentExactly(exponent); }
  }

  // A point and the digits after it, or neither.
  lemma AfterDigits(u: string) returns (point: string, fraction: string, rest: string)
    ensures u == point + (fraction + rest) && DigitsOnly(fraction)
    ensures if u != "" && u[0] == '.' then point == "." && rest == SkipDigits(u[1..])
            else point == "" && fraction == "" && rest == u
  {
    point, fraction, rest := "", "", u;
    if u != "" && u[0] == '.' {
      SkipDigitsShape(u[1..]);
      point, rest := ".", SkipDigits(u[1..]);
      fraction := u[1..][..|u| - 1 - |rest|];
      assert u == "." + u[1..] && u[1..] == fraction + rest;
    } else {
      assert "" + u == u;
    }
  }

  lemma FormIsDecimal(s: string, sign: string, whole: string, point: string, fraction: string, exponent: string)
    requires DecimalForm(s, sign, whole, point, fraction, exponent)
    ensures IsDecimal(s)
  {
    var tail := fraction + exponent;
    var u := point + tail;
    var t := whole + u;
    assert exponent != "" ==> !IsDigit(exponent[0]);
    assert u != "" ==> !IsDigit(u[0]);
    assert DropSign(s) == t by { SignDrops(sign, t); }
    SkipsDigits(whole, u);
    if point == "." {
      assert u[1..] == tail;
      SkipsDigits(fraction, exponent);
    } else {
      assert u == exponent;
    }
    if exponent != "" { ExponentExactly(exponent); }
  }

  lemma SignDrops(sign: string, t: string)
    requires IsSign(sign) && t != "" && t[0] != '+' && t[0] != '-'
    ensures DropSign(sign + t) == t
  {
    assert sign == "" ==> sign + t == t;
  }

  // Switch words and the words for numbers are quoted in any case, although the core schema would
  // read most of them as text.
  lemma WordsAreQuoted(s: string)
    requires Lower(s) in {"yes", "no", "on", "off", "true", "false", "null", "~"}
          || Lower(DropSign(s)) in {"inf", "infinity", "nan"}
    ensures EmitScalar(Str(s)) == "'" + s + "'"
  {
    NoQuoteToDouble(s);
  }

  lemma NoQuoteToDouble(s: string)
    requires Lower(s) in {"yes", "no", "on", "off", "true", "false", "null", "~"}
          || Lower(DropSign(s)) in {"inf", "infinity", "nan"}
    ensures NeedsQuoting(s) && Doubled(s) == s
  {
    forall i | 0 <= i < |s| ensures s[i] != '\'' {
      if Lower(s) in {"yes", "no", "on", "off", "true", "false", "null", "~"} {
        assert Lower(s)[i] == LowerChar(s[i]);
      } else if i >= |s| - |DropSign(s)| {
        var k := i - (|s| - |DropSign(s)|);
        assert DropSign(s)[k] == s[i] && Lower(DropSign(s))[k] == LowerChar(s[i]);
      }
    }
    NothingDoubled(s);
  }

  lemma {:induction false} NothingDoubled(s: string)
    requires forall i :: 0 <= i < |s| ==> s[i] != '\''
    ensures Doubled(s) == s
  {
    if s != "" {
      NothingDoubled(s[1..]);
      assert s == [s[0]] + s[1..];
    }
  }

  const QUOTED_STARTS := "-?[]{},><&*!|'\"%@`# "

  // Exactly when a text is quoted.
  lemma QuotedExactly(s: string)
    ensures NeedsQuoting(s) <==>
              || s == "" || Lower(s) in {"yes", "no", "on", "off", "true", "false", "null", "~"}
              || IsDecimal(s) || Lower(DropSign(s)) in {"inf", "infinity", "nan"}
              || s[0] in QUOTED_STARTS || s[|s| - 1] == ' ' || s[|s| - 1] == ':' || '\n' in s
              || (exists i :: PairAt(s, i, ": ") || PairAt(s, i, " #"))
  {
    if s != "" {
      assert IsIndicator(s[0]) <==> s[0] in QUOTED_STARTS;
      PairsExactly(s);
    }
  }

  predicate PairAt(s: string, i: int, pair: string) {
    0 <= i < |s| - 1 && s[i..i + 2] == pair
  }

  lemma PairsExactly(s: string)
    ensures Contains(s, ':', ' ') || Contains(s, ' ', '#') <==> exists i :: PairAt(s, i, ": ") || PairAt(s, i, " #")
  {
    if Contains(s, ':', ' ') {
      var i :| 0 <= i < |s| - 1 && s[i] == ':' && s[i + 1] == ' ';
      assert PairAt(s, i, ": ");
    }
    if Contains(s, ' ', '#') {
      var i :| 0 <= i < |s| - 1 && s[i] == ' ' && s[i + 1] == '#';
      assert PairAt(s, i, " #");
    }
    if i :| PairAt(s, i, ": ") || PairAt(s, i, " #") {
      assert s[i..i + 2][0] == s[i] && s[i..i + 2][1] == s[i + 1];
      assert Contains(s, ':', ' ') || Contains(s, ' ', '#');
    }
  }
}
