/** Strings as the configuration store uses them: trimming, ordering, decimal numbers. */
module Text {
  // The Unicode White_Space property, which is what trimming removes.
  predicate IsSpace(c: char) {
    || '\t' <= c <= '\r' || c == ' '
    || c == '\U{85}' || c == '\U{A0}' || c == '\U{1680}'
    || '\U{2000}' <= c <= '\U{200A}'
    || c == '\U{2028}' || c == '\U{2029}' || c == '\U{202F}' || c == '\U{205F}' || c == '\U{3000}'
  }

  function TrimStart(s: string): string {
    if s != [] && IsSpace(s[0]) then TrimStart(s[1..]) else s
  }

  function TrimEnd(s: string): string {
    if s != [] && IsSpace(s[|s| - 1]) then TrimEnd(s[..|s| - 1]) else s
  }

  function Trim(s: string): string {
    TrimEnd(TrimStart(s))
  }

  predicate Trimmed(s: string) {
    s == [] || (!IsSpace(s[0]) && !IsSpace(s[|s| - 1]))
  }

  lemma {:induction false} TrimStartStops(s: string)
    ensures TrimStart(s) != [] ==> !IsSpace(TrimStart(s)[0])
  {
    if s != [] && IsSpace(s[0]) { TrimStartStops(s[1..]); }
  }

  lemma {:induction false} TrimEndStops(s: string)
    ensures var t := TrimEnd(s); t <= s && (t != [] ==> !IsSpace(t[|t| - 1]))
  {
    if s != [] && IsSpace(s[|s| - 1]) { TrimEndStops(s[..|s| - 1]); }
  }

  // Trimming leaves exactly the trimmed strings alone, and always produces one.
  lemma TrimTrims(s: string)
    ensures Trimmed(Trim(s))
    ensures Trim(s) == s <==> Trimmed(s)
  {
    TrimStartStops(s);
    TrimEndStops(TrimStart(s));
  }

  // What trimming takes away is all white space, at the two ends.
  lemma TrimTakesSpace(s: string) returns (i: nat, j: nat)
    ensures i <= j <= |s| && Trim(s) == s[i..j]
    ensures forall k :: 0 <= k < i || j <= k < |s| ==> IsSpace(s[k])
  {
    i := TrimStartTakes(s);
    var n := TrimEndTakes(s[i..]);
    j := i + n;
    assert s[i..][..n] == s[i..j];
    forall k | j <= k < |s| ensures IsSpace(s[k]) {
      assert s[k] == s[i..][k - i];
    }
  }

  lemma {:induction false} TrimStartTakes(s: string) returns (i: nat)
    ensures i <= |s| && TrimStart(s) == s[i..] && forall k :: 0 <= k < i ==> IsSpace(s[k])
  {
    i := 0;
    if s != [] && IsSpace(s[0]) {
      i := TrimStartTakes(s[1..]);
      i := i + 1;
    }
  }

  lemma {:induction false} TrimEndTakes(s: string) returns (n: nat)
    ensures n <= |s| && TrimEnd(s) == s[..n] && forall k :: n <= k < |s| ==> IsSpace(s[k])
  {
    n := |s|;
    if s != [] && IsSpace(s[|s| - 1]) { n := TrimEndTakes(s[..|s| - 1]); }
  }

  // Byte order of UTF-8 text, which is code point order.
  predicate LexLe(a: string, b: string) {
    a == [] || (b != [] && (a[0] < b[0] || (a[0] == b[0] && LexLe(a[1..], b[1..]))))
  }

  lemma {:induction false} LexTotal(a: string, b: string)
    ensures LexLe(a, b) || LexLe(b, a)
    ensures LexLe(a, b) && LexLe(b, a) ==> a == b
    ensures LexLe(a, a)
  {
    if a != [] {
      LexTotal(a[1..], a[1..]);
      if b != [] {
        LexTotal(a[1..], b[1..]);
        assert a == [a[0]] + a[1..] && b == [b[0]] + b[1..];
      }
    }
  }

  lemma {:induction false} LexTransitive(a: string, b: string, c: string)
    requires LexLe(a, b) && LexLe(b, c)
    ensures LexLe(a, c)
  {
    if a != [] && a[0] == b[0] == c[0] {
      LexTransitive(a[1..], b[1..], c[1..]);
    }
  }

  // One text comes before another where they first differ, or where the first one ends.
  ghost predicate Precedes(a: string, b: string) {
    exists i: nat :: DiffersAt(a, b, i)
  }

  predicate DiffersAt(a: string, b: string, i: nat) {
    i <= |a| && i < |b| && a[..i] == b[..i] && (i == |a| || a[i] < b[i])
  }

  lemma {:induction false} LexLeExactly(a: string, b: string)
    ensures LexLe(a, b) <==> a == b || Precedes(a, b)
    ensures !(Precedes(a, b) && Precedes(b, a)) && !Precedes(a, a)
  {
    if b == [] {
      assert !Precedes(a, b);
      assert a != [] ==> DiffersAt(b, a, 0);
    } else if a == [] {
      assert DiffersAt(a, b, 0);
    } else {
      LexLeExactly(a[1..], b[1..]);
      PrecedesTails(a, b);
      PrecedesTails(b, a);
      assert a == [a[0]] + a[1..] && b == [b[0]] + b[1..];
    }
  }

  lemma PrecedesTails(a: string, b: string)
    requires a != [] && b != []
    ensures Precedes(a, b) <==> a[0] < b[0] || (a[0] == b[0] && Precedes(a[1..], b[1..]))
  {
    if Precedes(a, b) {
      var i: nat :| DiffersAt(a, b, i);
      if i > 0 {
        assert a[..i][0] == b[..i][0] && a[..i][1..] == a[1..][..i - 1] && b[..i][1..] == b[1..][..i - 1];
        assert DiffersAt(a[1..], b[1..], i - 1);
      }
    }
    if a[0] < b[0] { assert DiffersAt(a, b, 0); }
    if a[0] == b[0] && Precedes(a[1..], b[1..]) {
      var i: nat :| DiffersAt(a[1..], b[1..], i);
      assert a[..i + 1] == [a[0]] + a[1..][..i] && b[..i + 1] == [b[0]] + b[1..][..i];
      assert DiffersAt(a, b, i + 1);
    }
  }

  predicate IsDigit(c: char) {
    '0' <= c <= '9'
  }

  function Dec(n: nat): string {
    if n < 10 then [('0' as int + n) as char] else Dec(n / 10) + [('0' as int + n % 10) as char]
  }

  lemma {:induction false} DecDigits(n: nat)
    ensures Dec(n) != [] && forall i :: 0 <= i < |Dec(n)| ==> IsDigit(Dec(n)[i])
  {
    if n >= 10 { DecDigits(n / 10); }
  }

  lemma {:induction false} DecInjective(m: nat, n: nat)
    requires Dec(m) == Dec(n)
    ensures m == n
  {
    DecDigits(m / 10);
    DecDigits(n / 10);
    if m >= 10 && n >= 10 {
      assert Dec(m)[..|Dec(m)| - 1] == Dec(m / 10) && Dec(n)[..|Dec(n)| - 1] == Dec(n / 10);
      DecInjective(m / 10, n / 10);
      assert Dec(m)[|Dec(m)| - 1] == Dec(n)[|Dec(n)| - 1];
    }
  }

  // Read digit by digit, the text is the number.
  function NumberOf(s: string): int {
    if s == [] then 0 else 10 * NumberOf(s[..|s| - 1]) + (s[|s| - 1] as int - '0' as int)
  }

  lemma {:induction false} DecReads(n: nat)
    ensures NumberOf(Dec(n)) == n && (|Dec(n)| > 1 ==> Dec(n)[0] != '0')
  {
    if n >= 10 {
      DecReads(n / 10);
      DecDigits(n / 10);
      assert Dec(n)[..|Dec(n)| - 1] == Dec(n / 10);
      if n / 10 < 10 { assert Dec(n / 10)[0] != '0'; }
    }
  }

  // A number that follows a non-digit can be read off the end of the text.
  lemma DecSuffix(a: string, m: nat, b: string, n: nat)
    requires a != [] && b != [] && !IsDigit(a[|a| - 1]) && !IsDigit(b[|b| - 1])
    requires a + Dec(m) == b + Dec(n)
    ensures a == b && m == n
  {
    DecDigits(m);
    DecDigits(n);
    var whole := a + Dec(m);
    assert whole[|a| - 1] == a[|a| - 1] && whole[|b| - 1] == b[|b| - 1];
    assert |a| == |b|;
    assert a == whole[..|a|] == b;
    assert Dec(m) == whole[|a|..] == Dec(n);
    DecInjective(m, n);
  }
}
