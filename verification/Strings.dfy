/** The string functions the source takes from Go's library, on ASCII. */
module Strings {

  predicate IsSpace(c: char) {
    c == ' ' || c == '\t' || c == '\n' || c == '\r' || c == '\U{0B}' || c == '\U{0C}'
  }

  function TrimSpace(s: string): string {
    if s == "" then s
    else if IsSpace(s[0]) then TrimSpace(s[1..])
    else if IsSpace(s[|s| - 1]) then TrimSpace(s[..|s| - 1])
    else s
  }

  predicate AllSpace(s: string) {
    forall i :: 0 <= i < |s| ==> IsSpace(s[i])
  }

  /** Trimming leaves nothing exactly of a blank string. */
  lemma {:induction false} BlankExactly(s: string)
    ensures TrimSpace(s) == "" <==> AllSpace(s)
    decreases |s|
  {
    if s != "" && IsSpace(s[0]) {
      BlankExactly(s[1..]);
      assert forall i :: 0 < i < |s| ==> s[i] == s[1..][i - 1];
    } else if s != "" && IsSpace(s[|s| - 1]) {
      BlankExactly(s[..|s| - 1]);
      assert s[..|s| - 1][0] == s[0];
    }
  }

  lemma {:induction false} TrimIsIdempotent(s: string)
    ensures TrimSpace(TrimSpace(s)) == TrimSpace(s)
    decreases |s|
  {
    if s != "" && IsSpace(s[0]) {
      TrimIsIdempotent(s[1..]);
    } else if s != "" && IsSpace(s[|s| - 1]) {
      TrimIsIdempotent(s[..|s| - 1]);
    }
  }

  /** Space, tab, line feed, vertical tab, form feed and carriage return, by their codes. */
  predicate Blank(c: char) {
    c as int == 32 || 9 <= c as int <= 13
  }

  /** Trimming takes the blanks off both ends, and nothing else. */
  lemma {:induction false} TrimLeavesCore(s: string) returns (n: nat, m: nat)
    ensures n <= m <= |s| && TrimSpace(s) == s[n..m]
    ensures forall i :: (0 <= i < n || m <= i < |s|) ==> Blank(s[i])
    ensures n < m ==> !Blank(s[n]) && !Blank(s[m - 1])
    decreases |s|
  {
    if s == "" {
      n, m := 0, 0;
    } else if IsSpace(s[0]) {
      n, m := TrimLeavesCore(s[1..]);
      n, m := n + 1, m + 1;
      assert forall i :: 0 < i < |s| ==> s[i] == s[1..][i - 1];
    } else if IsSpace(s[|s| - 1]) {
      n, m := TrimLeavesCore(s[..|s| - 1]);
      assert forall i :: 0 <= i < |s| - 1 ==> s[i] == s[..|s| - 1][i];
    } else {
      n, m := 0, |s|;
    }
  }

  function LowerChar(c: char): char {
    if 'A' <= c <= 'Z' then ((c as int) + 32) as char else c
  }

  function ToLower(s: string): string {
    seq(|s|, i requires 0 <= i < |s| => LowerChar(s[i]))
  }

  /** A string in small letters is what a string becomes exactly if it differs in capitals only. */
  lemma LowersExactly(s: string, t: string)
    requires forall i :: 0 <= i < |t| ==> 'a' <= t[i] <= 'z'
    ensures ToLower(s) == t <==>
              |s| == |t| && forall i :: 0 <= i < |s| ==> s[i] == t[i] || s[i] as int == t[i] as int - 32
  {
    if ToLower(s) == t {
      forall i | 0 <= i < |s|
        ensures s[i] == t[i] || s[i] as int == t[i] as int - 32
      {
        assert LowerChar(s[i]) == t[i];
      }
    }
  }

  predicate OccursAt(s: string, sub: string, i: int) {
    0 <= i <= |s| - |sub| && s[i..i + |sub|] == sub
  }

  predicate Contains(s: string, sub: string) {
    exists i :: 0 <= i <= |s| && OccursAt(s, sub, i)
  }

  function Digit(d: nat): char
    requires d < 10
  {
    (('0' as int) + d) as char
  }

  /** Decimal rendering, as %d prints it. */
  function Decimal(n: nat): (s: string)
    ensures |s| >= 1 && (n >= 10 ==> |s| >= 2)
  {
    if n < 10 then [Digit(n)] else Decimal(n / 10) + [Digit(n % 10)]
  }

  lemma {:induction false} DecimalInjective(m: nat, n: nat)
    requires Decimal(m) == Decimal(n)
    ensures m == n
    decreases m
  {
    var s := Decimal(m);
    assert s[|s| - 1] == Digit(m % 10) == Digit(n % 10);
    if m >= 10 && n >= 10 {
      assert Decimal(m / 10) == s[..|s| - 1] == Decimal(n / 10);
      DecimalInjective(m / 10, n / 10);
    }
  }
}
