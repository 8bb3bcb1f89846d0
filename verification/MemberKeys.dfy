/** Queue members of the Redis backend: a sequence number printed with `%020d`, a bar and the job id. The
    printed text splits back into the two parts, so a member is handled as the pair and compared as text. */
module MemberKeys {
  import opened Lexical
  import opened Arithmetic

  const Width: nat := 20

  function Digit(d: nat): (c: char)
    requires d < 10
    ensures '0' <= c <= '9'
  {
    '0' + (d as char)
  }

  function Digits(n: nat): (s: string)
    ensures s != [] && AllDigits(s)
  {
    if n < 10 then [Digit(n)] else Digits(n / 10) + [Digit(n % 10)]
  }

  function Zeros(k: nat): (s: string)
    ensures |s| == k && forall i :: 0 <= i < k ==> s[i] == '0'
  {
    seq(k, i => '0')
  }

  /** `%020d`: at least twenty characters, padded on the left. */
  function Padded(n: nat): string {
    var s := Digits(n);
    if |s| < Width then Zeros(Width - |s|) + s else s
  }

  datatype Member = Member(number: nat, id: string)

  /** What the scripts store in the sorted set. */
  function Text(m: Member): string {
    Padded(m.number) + "|" + m.id
  }

  /** Index of the first bar, or the length when there is none. */
  function Bar(m: string): (i: nat)
    ensures i <= |m|
  {
    if m == [] || m[0] == '|' then 0 else 1 + Bar(m[1..])
  }

  function IdPart(m: string): string {
    if Bar(m) < |m| then m[Bar(m) + 1..] else []
  }

  function Value(s: string): nat
    requires AllDigits(s)
  {
    if s == [] then 0 else 10 * Value(s[..|s| - 1]) + (s[|s| - 1] - '0') as nat
  }

  predicate AllDigits(s: string) {
    forall i :: 0 <= i < |s| ==> '0' <= s[i] <= '9'
  }

  function NumberPart(m: string): nat {
    if AllDigits(m[..Bar(m)]) then Value(m[..Bar(m)]) else 0
  }

  // ------------------------------------------------------------ round trips

  lemma {:induction false} ValueOfDigits(n: nat)
    ensures Value(Digits(n)) == n
  {
    var s := Digits(n);
    if n >= 10 {
      ValueOfDigits(n / 10);
      assert s[..|s| - 1] == Digits(n / 10);
    } else {
      assert s[..0] == [];
    }
  }

  lemma {:induction false} ValueOfPadding(k: nat, s: string)
    requires AllDigits(s)
    ensures AllDigits(Zeros(k) + s) && Value(Zeros(k) + s) == Value(s)
    decreases |s|, k
  {
    var t := Zeros(k) + s;
    if s != [] {
      assert t[..|t| - 1] == Zeros(k) + s[..|s| - 1];
      ValueOfPadding(k, s[..|s| - 1]);
    } else if k > 0 {
      assert t[..|t| - 1] == Zeros(k - 1) + s;
      ValueOfPadding(k - 1, s);
    } else {
      assert t == s;
    }
  }

  lemma {:induction false} ValueOfPadded(n: nat)
    ensures AllDigits(Padded(n)) && Value(Padded(n)) == n
  {
    ValueOfDigits(n);
    if |Digits(n)| < Width {
      ValueOfPadding(Width - |Digits(n)|, Digits(n));
    }
  }

  lemma {:induction false} BarAfterDigits(s: string, id: string)
    requires AllDigits(s)
    ensures Bar(s + "|" + id) == |s|
  {
    var m := s + "|" + id;
    if s != [] {
      assert m[0] == s[0];
      assert m[1..] == s[1..] + "|" + id;
      BarAfterDigits(s[1..], id);
    }
  }

  /** Splitting the text at its first bar gives back both parts, whatever the id contains. */
  lemma {:induction false} TextRoundTrip(m: Member)
    ensures IdPart(Text(m)) == m.id && NumberPart(Text(m)) == m.number
  {
    ValueOfPadded(m.number);
    BarAfterDigits(Padded(m.number), m.id);
    assert Text(m)[..|Padded(m.number)|] == Padded(m.number);
  }

  lemma {:induction false} TextInjective()
    ensures forall a: Member, b: Member :: Text(a) == Text(b) ==> a == b
  {
    forall a: Member, b: Member | Text(a) == Text(b)
      ensures a == b
    {
      TextRoundTrip(a);
      TextRoundTrip(b);
    }
  }

  // ------------------------------------------------------------------ order

  function Pow10(k: nat): (r: nat)
    ensures r > 0
  {
    if k == 0 then 1 else 10 * Pow10(k - 1)
  }

  lemma {:induction false} DigitsFit(n: nat, k: nat)
    requires k > 0 && n < Pow10(k)
    ensures |Digits(n)| <= k
  {
    if n >= 10 {
      DigitsFit(n / 10, k - 1);
    }
  }

  lemma {:induction false} ValueBelow(s: string)
    requires AllDigits(s)
    ensures Value(s) < Pow10(|s|)
  {
    if s != [] {
      ValueBelow(s[..|s| - 1]);
    }
  }

  lemma {:induction false} ValueFromTheLeft(s: string)
    requires s != [] && AllDigits(s)
    ensures Value(s) == (s[0] - '0') as nat * Pow10(|s| - 1) + Value(s[1..])
  {
    var front := s[..|s| - 1];
    if front == [] {
      assert s[1..] == [];
      assert Value(s) == (s[0] - '0') as nat;
    } else {
      ValueFromTheLeft(front);
      assert s[1..][..|s| - 2] == front[1..];
      assert Value(s[1..]) == 10 * Value(front[1..]) + (s[|s| - 1] - '0') as nat;
      Regroup((s[0] - '0') as nat, Pow10(|s| - 2), Value(front[1..]));
    }
  }

  lemma {:induction false} Regroup(a: nat, p: nat, v: nat)
    ensures 10 * (a * p + v) == a * (10 * p) + 10 * v
  {
  }

  lemma {:induction false} DigitDecides(a: nat, b: nat, p: nat, x: nat, y: nat)
    requires a < b && x < p
    ensures a * p + x < b * p + y
  {
    AtLeastOnce(b - a, p);
    assert b * p == a * p + (b - a) * p;
  }

  /** Digit strings of one length sort as their values do. */
  lemma {:induction false} SameLengthOrder(s: string, t: string)
    requires |s| == |t| && AllDigits(s) && AllDigits(t) && Value(s) < Value(t)
    ensures Less(s, t)
  {
    if s != [] {
      ValueFromTheLeft(s);
      ValueFromTheLeft(t);
      ValueBelow(s[1..]);
      ValueBelow(t[1..]);
      if s[0] > t[0] {
        DigitDecides((t[0] - '0') as nat, (s[0] - '0') as nat, Pow10(|s| - 1), Value(t[1..]), Value(s[1..]));
      } else if s[0] == t[0] {
        SameLengthOrder(s[1..], t[1..]);
      }
    }
  }

  lemma {:induction false} SuffixKeepsOrder(s: string, t: string, x: string, y: string)
    requires |s| == |t| && Less(s, t)
    ensures Less(s + x, t + y)
  {
    assert (s + x)[0] == s[0] && (t + y)[0] == t[0];
    if s[0] == t[0] {
      SuffixKeepsOrder(s[1..], t[1..], x, y);
      assert (s + x)[1..] == s[1..] + x && (t + y)[1..] == t[1..] + y;
    }
  }

  lemma {:induction false} PaddedLength(n: nat)
    requires n < Pow10(Width)
    ensures |Padded(n)| == Width
  {
    DigitsFit(n, Width);
  }

  lemma {:induction false} SmallerNumberFirst(a: Member, b: Member)
    requires a.number < b.number < Pow10(Width)
    ensures Less(Text(a), Text(b))
  {
    PaddedLength(a.number);
    PaddedLength(b.number);
    ValueOfPadded(a.number);
    ValueOfPadded(b.number);
    SameLengthOrder(Padded(a.number), Padded(b.number));
    SuffixKeepsOrder(Padded(a.number), Padded(b.number), "|" + a.id, "|" + b.id);
    assert Text(a) == Padded(a.number) + ("|" + a.id) && Text(b) == Padded(b.number) + ("|" + b.id);
  }

  /** Below 10^20 the string order of members is the order of their sequence numbers. */
  lemma {:induction false} TextOrder(a: Member, b: Member)
    requires a.number < Pow10(Width) && b.number < Pow10(Width) && a.number != b.number
    ensures Less(Text(a), Text(b)) <==> a.number < b.number
  {
    if a.number < b.number {
      SmallerNumberFirst(a, b);
    } else {
      SmallerNumberFirst(b, a);
      LessAsymmetric(Text(b), Text(a));
    }
  }

  /** The largest number INCR returns, a signed 64-bit integer. */
  const MaxIncr: nat := 0x7FFF_FFFF_FFFF_FFFF

  /** Every number a server can draw is within the bound. */
  lemma {:induction false} IncrIsOrdered()
    ensures MaxIncr < Pow10(Width)
  {
    assert Pow10(5) == 100_000;
    assert Pow10(10) == 100_000 * Pow10(5);
    assert Pow10(15) == 100_000 * Pow10(10);
    assert Pow10(20) == 100_000 * Pow10(15);
  }
}
