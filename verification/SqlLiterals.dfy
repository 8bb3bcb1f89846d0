/** The splitter that keeps SQL rewriting out of string literals. A literal is a single-quoted string in
    which a quote is written twice (character string literal, section 5.3 of ISO/IEC 9075-2). */
module SqlLiterals {

  datatype Segment = Segment(literal: bool, text: string)

  const Quote: char := '\''

  predicate NoQuote(s: string) {
    Quote !in s
  }

  /** Every quote of `s` is one of a doubled pair, read from the left. */
  predicate Paired(s: string) {
    s == [] ||
    (if s[0] != Quote then Paired(s[1..]) else |s| >= 2 && s[1] == Quote && Paired(s[2..]))
  }

  predicate ClosedLiteral(s: string) {
    |s| >= 2 && s[0] == Quote && s[|s| - 1] == Quote && Paired(s[1..|s| - 1])
  }

  predicate OpenLiteral(s: string) {
    |s| >= 1 && s[0] == Quote && Paired(s[1..])
  }

  function Concat(segs: seq<Segment>): string {
    if segs == [] then "" else segs[0].text + Concat(segs[1..])
  }

  predicate GoodSegment(s: Segment, last: bool) {
    if s.literal then ClosedLiteral(s.text) || (last && OpenLiteral(s.text)) else s.text != [] && NoQuote(s.text)
  }

  predicate Alternates(segs: seq<Segment>) {
    forall i :: 0 <= i < |segs| - 1 ==> segs[i].literal != segs[i + 1].literal
  }

  predicate AllGood(segs: seq<Segment>) {
    forall i :: 0 <= i < |segs| ==> GoodSegment(segs[i], i == |segs| - 1)
  }

  /** The reference: the segments spell `sql`, strictly alternate, and only the last may be unterminated. */
  predicate Segmentation(sql: string, segs: seq<Segment>) {
    Concat(segs) == sql && Alternates(segs) && AllGood(segs)
  }

  // ------------------------------------------------------------- concatenation

  lemma {:induction false} Associates(a: string, b: string, c: string)
    ensures a + b + c == a + (b + c)
  {
  }

  lemma {:induction false} ConcatConcat(a: seq<Segment>, b: seq<Segment>)
    ensures Concat(a + b) == Concat(a) + Concat(b)
  {
    if a == [] {
      assert a + b == b;
    } else {
      ConcatConcat(a[1..], b);
      assert (a + b)[1..] == a[1..] + b && (a + b)[0] == a[0];
      Associates(a[0].text, Concat(a[1..]), Concat(b));
    }
  }

  lemma {:induction false} ConcatOne(s: Segment)
    ensures Concat([s]) == s.text
  {
    assert [s][1..] == [];
  }

  lemma {:induction false} ConcatAppend(segs: seq<Segment>, s: Segment)
    ensures Concat(segs + [s]) == Concat(segs) + s.text
  {
    ConcatConcat(segs, [s]);
    ConcatOne(s);
  }

  lemma {:induction false} PairedAppend(s: string, t: string)
    requires Paired(s)
    ensures Paired(s + t) <==> Paired(t)
  {
    if s == [] {
      assert s + t == t;
    } else if s[0] != Quote {
      PairedAppend(s[1..], t);
      assert (s + t)[1..] == s[1..] + t;
    } else {
      PairedAppend(s[2..], t);
      assert (s + t)[2..] == s[2..] + t;
    }
  }

  // -------------------------------------------------------------- the splitter

  /** What the loop knows of the text it has not yet emitted. */
  predicate Carry(segs: seq<Segment>, buf: string, inStr: bool) {
    && (segs != [] ==> segs[|segs| - 1].literal == !inStr)
    && (if inStr then OpenLiteral(buf) else NoQuote(buf))
  }

  predicate Emitted(segs: seq<Segment>) {
    Alternates(segs) && forall i :: 0 <= i < |segs| ==> GoodSegment(segs[i], false)
  }

  lemma {:induction false} Emit(segs: seq<Segment>, s: Segment)
    requires Emitted(segs) && GoodSegment(s, false) && (segs != [] ==> segs[|segs| - 1].literal != s.literal)
    ensures Emitted(segs + [s]) && Concat(segs + [s]) == Concat(segs) + s.text
  {
    ConcatAppend(segs, s);
  }

  /** An ordinary character or a doubled quote is taken into the open literal. */
  lemma {:induction false} Grows(segs: seq<Segment>, buf: string, sql: string, i: nat, k: nat)
    requires i + k <= |sql| && Concat(segs) + buf == sql[..i] && Carry(segs, buf, true) && Paired(sql[i..i + k])
    ensures Concat(segs) + (buf + sql[i..i + k]) == sql[..i + k] && Carry(segs, buf + sql[i..i + k], true)
  {
    OpenGrows(buf, sql[i..i + k]);
    Associates(Concat(segs), buf, sql[i..i + k]);
    assert sql[..i] + sql[i..i + k] == sql[..i + k];
  }

  /** A single quote ends the literal and emits it. */
  lemma {:induction false} Closes(segs: seq<Segment>, buf: string, sql: string, i: nat)
    requires i < |sql| && sql[i] == Quote && Concat(segs) + buf == sql[..i]
    requires Emitted(segs) && Carry(segs, buf, true)
    ensures var segs' := segs + [Segment(true, buf + [Quote])];
      Emitted(segs') && Carry(segs', "", false) && Concat(segs') + "" == sql[..i + 1]
  {
    OpenCloses(buf);
    Emit(segs, Segment(true, buf + [Quote]));
    assert Concat(segs) + (buf + [Quote]) == sql[..i] + [Quote] == sql[..i + 1];
  }

  lemma {:induction false} OrdinaryIsPaired(sql: string, i: nat)
    requires i < |sql| && sql[i] != Quote
    ensures Paired(sql[i..i + 1])
  {
    assert sql[i..i + 1][1..] == [];
  }

  lemma {:induction false} DoubledIsPaired(sql: string, i: nat)
    requires i + 1 < |sql| && sql[i] == Quote && sql[i + 1] == Quote
    ensures Paired(sql[i..i + 2])
  {
    assert sql[i..i + 2][2..] == [];
  }

  /** One more character, or a doubled quote, inside a literal. */
  method ReadInside(sql: string, i: nat, segs: seq<Segment>, buf: string)
    returns (segs': seq<Segment>, buf': string, inStr: bool, next: nat)
    requires i < |sql| && Concat(segs) + buf == sql[..i] && Emitted(segs) && Carry(segs, buf, true)
    ensures i < next <= |sql| && Concat(segs') + buf' == sql[..next] && Emitted(segs') && Carry(segs', buf', inStr)
    ensures !inStr && next < |sql| ==> buf' == [] && sql[next] != Quote
  {
    if sql[i] != Quote {
      OrdinaryIsPaired(sql, i);
      Grows(segs, buf, sql, i, 1);
      segs', buf', inStr, next := segs, buf + sql[i..i + 1], true, i + 1;
    } else if i + 1 < |sql| && sql[i + 1] == Quote {
      DoubledIsPaired(sql, i);
      Grows(segs, buf, sql, i, 2);
      segs', buf', inStr, next := segs, buf + sql[i..i + 2], true, i + 2;
    } else {
      Closes(segs, buf, sql, i);
      segs', buf', inStr, next := segs + [Segment(true, buf + [Quote])], "", false, i + 1;
    }
  }

  /** One more character outside a literal; a quote emits the chunk before it and opens a literal. */
  method ReadOutside(sql: string, i: nat, segs: seq<Segment>, buf: string)
    returns (segs': seq<Segment>, buf': string, inStr: bool)
    requires i < |sql| && Concat(segs) + buf == sql[..i] && Emitted(segs) && Carry(segs, buf, false)
    requires buf == [] && segs != [] ==> sql[i] != Quote
    ensures Concat(segs') + buf' == sql[..i + 1] && Emitted(segs') && Carry(segs', buf', inStr)
    ensures buf' != []
  {
    segs', inStr := segs, sql[i] == Quote;
    assert sql[..i + 1] == sql[..i] + [sql[i]];
    if !inStr {
      Associates(Concat(segs), buf, [sql[i]]);
      buf' := buf + [sql[i]];
    } else {
      if buf != [] {
        Emit(segs, Segment(false, buf));
        segs' := segs + [Segment(false, buf)];
      }
      buf' := [Quote];
    }
  }

  method Split(sql: string) returns (segs: seq<Segment>)
    ensures Segmentation(sql, segs)
  {
    segs := [];
    var buf: string := "";
    var inStr := false;
    var i, n := 0, |sql|;
    while i < n
      invariant 0 <= i <= n
      invariant Concat(segs) + buf == sql[..i]
      invariant Emitted(segs) && Carry(segs, buf, inStr)
      invariant !inStr && buf == [] && segs != [] && i < n ==> sql[i] != Quote
      decreases n - i
    {
      if inStr {
        segs, buf, inStr, i := ReadInside(sql, i, segs, buf);
      } else {
        segs, buf, inStr := ReadOutside(sql, i, segs, buf);
        i := i + 1;
      }
    }
    assert sql[..n] == sql;
    LastSegment(sql, segs, buf, inStr);
    if buf != [] {
      segs := segs + [Segment(inStr, buf)];
    }
  }

  /** What is left at the end becomes the last segment, an open literal if one was being read. */
  lemma {:induction false} LastSegment(sql: string, segs: seq<Segment>, buf: string, inStr: bool)
    requires Concat(segs) + buf == sql && Emitted(segs) && Carry(segs, buf, inStr)
    ensures Segmentation(sql, if buf == [] then segs else segs + [Segment(inStr, buf)])
  {
    if buf == [] {
      assert Concat(segs) + buf == Concat(segs);
    } else {
      ConcatAppend(segs, Segment(inStr, buf));
    }
  }

  lemma {:induction false} OpenGrows(buf: string, more: string)
    requires OpenLiteral(buf) && Paired(more)
    ensures OpenLiteral(buf + more)
  {
    PairedAppend(buf[1..], more);
    assert (buf + more)[1..] == buf[1..] + more;
  }

  lemma {:induction false} OpenCloses(buf: string)
    requires OpenLiteral(buf)
    ensures ClosedLiteral(buf + [Quote])
  {
    var s := buf + [Quote];
    assert s[1..|s| - 1] == buf[1..];
  }

  // ---------------------------------------------------------------- uniqueness

  /** A first segment with what follows it: either nothing, or a segment of the other kind. */
  lemma {:induction false} FirstAndRest(sql: string, segs: seq<Segment>)
    requires Segmentation(sql, segs) && segs != []
    ensures sql == segs[0].text + Concat(segs[1..]) && Segmentation(Concat(segs[1..]), segs[1..])
    ensures segs[0].text != [] && segs[0].literal == (sql[0] == Quote)
    ensures |segs| > 1 ==> Concat(segs[1..]) != [] && (Concat(segs[1..])[0] == Quote) == !segs[0].literal
    ensures GoodSegment(segs[0], Concat(segs[1..]) == [])
  {
    var rest := segs[1..];
    assert GoodSegment(segs[0], |segs| == 1);
    forall i | 0 <= i < |rest|
      ensures GoodSegment(rest[i], i == |rest| - 1)
    {
      assert GoodSegment(segs[i + 1], i + 1 == |segs| - 1);
    }
    if rest != [] {
      assert GoodSegment(rest[0], |rest| == 1) && segs[0].literal != segs[1].literal;
      assert Concat(rest) == rest[0].text + Concat(rest[1..]);
    }
  }

  /** A closed literal that begins a longer literal is followed there by a quote. */
  lemma {:induction false} LiteralEndsThere(a: string, b: string)
    requires ClosedLiteral(a) && (ClosedLiteral(b) || OpenLiteral(b))
    requires |a| < |b| && a <= b
    ensures b[|a|] == Quote
  {
    var inner := a[1..|a| - 1];
    var body := if ClosedLiteral(b) then b[1..|b| - 1] else b[1..];
    assert body == inner + body[|inner|..];
    PairedAppend(inner, body[|inner|..]);
    assert b[|a| - 1] == a[|a| - 1] == Quote;
  }

  lemma {:induction false} FirstNotLonger(sql: string, s: seq<Segment>, t: seq<Segment>)
    requires Segmentation(sql, s) && Segmentation(sql, t) && s != [] && t != []
    ensures |t[0].text| <= |s[0].text|
  {
    FirstAndRest(sql, s);
    FirstAndRest(sql, t);
    var a, b, rest := s[0].text, t[0].text, Concat(s[1..]);
    if |a| < |b| {
      assert a == sql[..|a|] && b == sql[..|b|];
      assert b[|a|] == sql[|a|] == rest[0];
      if s[0].literal {
        LiteralEndsThere(a, b);
      }
    }
  }

  /** The reference determines the segments, so the splitter's result is the only right one. */
  lemma {:induction false} SegmentationUnique(sql: string, s: seq<Segment>, t: seq<Segment>)
    requires Segmentation(sql, s) && Segmentation(sql, t)
    ensures s == t
    decreases |s|
  {
    if s == [] {
      if t != [] {
        FirstAndRest(sql, t);
      }
    } else {
      FirstAndRest(sql, s);
      if t != [] {
        FirstAndRest(sql, t);
        FirstNotLonger(sql, s, t);
        FirstNotLonger(sql, t, s);
        assert s[0].text == sql[..|s[0].text|] == t[0].text;
        assert Concat(s[1..]) == sql[|s[0].text|..] == Concat(t[1..]);
        SegmentationUnique(Concat(s[1..]), s[1..], t[1..]);
        assert s == [s[0]] + s[1..] && t == [t[0]] + t[1..];
      }
    }
  }

  // --------------------------------------------------------------- translation

  /** Rewrites what lies outside the literals and leaves the literals as they are. */
  function Mapped(segs: seq<Segment>, rewrite: string -> string): (r: seq<Segment>)
    ensures |r| == |segs|
  {
    seq(|segs|, i requires 0 <= i < |segs| =>
      if segs[i].literal then segs[i] else Segment(false, rewrite(segs[i].text)))
  }

  /** The whole translation: `fuse` is the pass that runs before the splitter. The translated text is the
      unique segmentation of its result with the non-literal chunks rewritten. */
  method Translate(sql: string, fuse: string -> string, rewrite: string -> string) returns (r: string)
    ensures exists segs :: Segmentation(fuse(sql), segs)
    ensures forall segs :: Segmentation(fuse(sql), segs) ==> r == Concat(Mapped(segs, rewrite))
  {
    var pieces := Split(fuse(sql));
    r := "";
    for i := 0 to |pieces|
      invariant r == Concat(Mapped(pieces[..i], rewrite))
    {
      var piece := if pieces[i].literal then pieces[i].text else rewrite(pieces[i].text);
      assert Mapped(pieces[..i + 1], rewrite) ==
        Mapped(pieces[..i], rewrite) + [Segment(pieces[i].literal, piece)];
      ConcatAppend(Mapped(pieces[..i], rewrite), Segment(pieces[i].literal, piece));
      r := r + piece;
    }
    assert pieces[..|pieces|] == pieces;
    forall segs | Segmentation(fuse(sql), segs)
      ensures segs == pieces
    {
      SegmentationUnique(fuse(sql), segs, pieces);
    }
  }

  /** A text whose literals are all closed, such as the date functions a rewrite inserts. */
  ghost predicate Balanced(s: string) {
    exists ps :: ClosedParts(s, ps)
  }

  predicate ClosedParts(s: string, ps: seq<Segment>) {
    Segmentation(s, ps) && forall i :: 0 <= i < |ps| && ps[i].literal ==> ClosedLiteral(ps[i].text)
  }

  ghost function PartsOf(s: string): (ps: seq<Segment>)
    requires Balanced(s)
    ensures ClosedParts(s, ps)
  {
    var ps :| ClosedParts(s, ps); ps
  }

  ghost predicate BalancedRewrite(segs: seq<Segment>, rewrite: string -> string) {
    forall i :: 0 <= i < |segs| && !segs[i].literal ==> Balanced(rewrite(segs[i].text))
  }

  predicate StartsWithQuote(s: string) {
    s != [] && s[0] == Quote
  }

  predicate EndsWithQuote(s: string) {
    s != [] && s[|s| - 1] == Quote
  }

  /** What the rewritten chunk at `i` must not do: touch a literal next to it with a quote, or vanish between
      two of them. */
  predicate SeparatedAt(segs: seq<Segment>, rewrite: string -> string, i: nat)
    requires i < |segs|
  {
    var out := rewrite(segs[i].text);
    && (i > 0 ==> !StartsWithQuote(out))
    && (i + 1 < |segs| ==> !EndsWithQuote(out))
    && (0 < i < |segs| - 1 ==> out != [])
  }

  predicate Separated(segs: seq<Segment>, rewrite: string -> string) {
    forall i :: 0 <= i < |segs| && !segs[i].literal ==> SeparatedAt(segs, rewrite, i)
  }

  /** Segment `i` of `segs` is found again in `again`, unchanged and at the same place of the text. */
  predicate FoundAt(segs: seq<Segment>, again: seq<Segment>, i: nat, j: nat)
    requires i < |segs|
  {
    j < |again| && again[j] == segs[i] && Concat(again[..j]) == Concat(segs[..i])
  }

  ghost predicate Survives(segs: seq<Segment>, again: seq<Segment>, i: nat)
    requires i < |segs|
  {
    exists j :: FoundAt(segs, again, i, j)
  }

  // ----------------------------------------------- separated literals survive

  /** The literals as they were, and the segments of every rewritten chunk. */
  ghost function Refined(segs: seq<Segment>, rewrite: string -> string): seq<Segment>
    requires BalancedRewrite(segs, rewrite)
  {
    if segs == [] then [] else RefinedAt(segs, rewrite, 0) + Refined(segs[1..], rewrite)
  }

  ghost function RefinedAt(segs: seq<Segment>, rewrite: string -> string, i: nat): seq<Segment>
    requires BalancedRewrite(segs, rewrite) && i < |segs|
  {
    if segs[i].literal then [segs[i]] else PartsOf(rewrite(segs[i].text))
  }

  lemma {:induction false} RefinedAtSpells(segs: seq<Segment>, rewrite: string -> string, i: nat)
    requires BalancedRewrite(segs, rewrite) && i < |segs|
    ensures Concat(RefinedAt(segs, rewrite, i)) == Mapped(segs, rewrite)[i].text
  {
    ConcatOne(segs[i]);
  }

  lemma {:induction false} RefinedSpells(segs: seq<Segment>, rewrite: string -> string)
    requires BalancedRewrite(segs, rewrite)
    ensures Concat(Refined(segs, rewrite)) == Concat(Mapped(segs, rewrite))
  {
    if segs != [] {
      RefinedSpells(segs[1..], rewrite);
      RefinedAtSpells(segs, rewrite, 0);
      ConcatConcat(RefinedAt(segs, rewrite, 0), Refined(segs[1..], rewrite));
      assert Mapped(segs, rewrite)[1..] == Mapped(segs[1..], rewrite);
    }
  }

  /** Where a segmentation begins and ends shows in its text. */
  lemma {:induction false} EndsShow(s: string, ps: seq<Segment>)
    requires ClosedParts(s, ps)
    ensures s == [] <==> ps == []
    ensures ps != [] ==> ps[0].literal == StartsWithQuote(s) && ps[|ps| - 1].literal == EndsWithQuote(s)
  {
    if ps != [] {
      FirstAndRest(s, ps);
      var last := |ps| - 1;
      assert ps == ps[..last] + [ps[last]];
      ConcatAppend(ps[..last], ps[last]);
      assert GoodSegment(ps[last], true);
      assert s[|s| - 1] == ps[last].text[|ps[last].text| - 1];
    }
  }

  /** Two alternating runs alternate together when their touching ends differ. */
  lemma {:induction false} JoinAlternates(a: seq<Segment>, b: seq<Segment>)
    requires Alternates(a) && Alternates(b)
    requires a != [] && b != [] ==> a[|a| - 1].literal != b[0].literal
    ensures Alternates(a + b)
  {
  }

  lemma {:induction false} JoinGood(a: seq<Segment>, b: seq<Segment>)
    requires forall i :: 0 <= i < |a| ==> GoodSegment(a[i], false)
    requires AllGood(b)
    ensures AllGood(a + b)
  {
  }

  lemma {:induction false} SeparatedTail(segs: seq<Segment>, rewrite: string -> string)
    requires segs != [] && Separated(segs, rewrite) && BalancedRewrite(segs, rewrite)
    ensures Separated(segs[1..], rewrite) && BalancedRewrite(segs[1..], rewrite)
  {
    var rest := segs[1..];
    forall i | 0 <= i < |rest| && !rest[i].literal
      ensures SeparatedAt(rest, rewrite, i) && Balanced(rewrite(rest[i].text))
    {
      assert SeparatedAt(segs, rewrite, i + 1) && rest[i] == segs[i + 1];
    }
  }

  /** Which kind of segment the refinement begins with. */
  lemma {:induction false} RefinedBegins(segs: seq<Segment>, rewrite: string -> string)
    requires segs != [] && BalancedRewrite(segs, rewrite)
    requires !segs[0].literal ==> rewrite(segs[0].text) != []
    ensures Refined(segs, rewrite) != []
    ensures Refined(segs, rewrite)[0].literal == (segs[0].literal || StartsWithQuote(rewrite(segs[0].text)))
  {
    if !segs[0].literal {
      EndsShow(rewrite(segs[0].text), PartsOf(rewrite(segs[0].text)));
    }
  }

  lemma {:induction false} RefinedIsSegmentation(segs: seq<Segment>, rewrite: string -> string)
    requires Alternates(segs) && AllGood(segs) && BalancedRewrite(segs, rewrite) && Separated(segs, rewrite)
    ensures Alternates(Refined(segs, rewrite)) && AllGood(Refined(segs, rewrite))
  {
    if segs != [] {
      var first, rest := RefinedAt(segs, rewrite, 0), segs[1..];
      SeparatedTail(segs, rewrite);
      GoodTail(segs);
      RefinedIsSegmentation(rest, rewrite);
      FirstJoins(segs, rewrite);
      JoinAlternates(first, Refined(rest, rewrite));
      if rest == [] {
        assert first + [] == first;
        assert GoodSegment(segs[0], true);
      } else {
        assert GoodSegment(segs[0], false);
        JoinGood(first, Refined(rest, rewrite));
      }
    }
  }

  lemma {:induction false} GoodTail(segs: seq<Segment>)
    requires segs != [] && Alternates(segs) && AllGood(segs)
    ensures Alternates(segs[1..]) && AllGood(segs[1..])
  {
    var rest := segs[1..];
    forall i | 0 <= i < |rest|
      ensures GoodSegment(rest[i], i == |rest| - 1)
    {
      assert GoodSegment(segs[i + 1], i + 1 == |segs| - 1);
    }
  }

  /** The first segment's refinement and the rest touch with different kinds. */
  lemma {:induction false} FirstJoins(segs: seq<Segment>, rewrite: string -> string)
    requires segs != [] && Alternates(segs) && BalancedRewrite(segs, rewrite) && Separated(segs, rewrite)
    requires BalancedRewrite(segs[1..], rewrite)
    ensures var first, rest := RefinedAt(segs, rewrite, 0), Refined(segs[1..], rewrite);
      && Alternates(first)
      && (first != [] && rest != [] ==> first[|first| - 1].literal != rest[0].literal)
  {
    if !segs[0].literal {
      EndsShow(rewrite(segs[0].text), PartsOf(rewrite(segs[0].text)));
      assert SeparatedAt(segs, rewrite, 0);
    }
    if |segs| > 1 {
      assert segs[0].literal != segs[1].literal;
      if segs[1].literal {
        RefinedBegins(segs[1..], rewrite);
      } else {
        assert SeparatedAt(segs, rewrite, 1);
        if rewrite(segs[1].text) != [] {
          RefinedBegins(segs[1..], rewrite);
        } else {
          EndsShow("", PartsOf(""));
          assert segs[1..][1..] == [];
        }
      }
    }
  }

  lemma {:induction false} RefinedKeepsLiteral(segs: seq<Segment>, rewrite: string -> string, i: nat) returns (j: nat)
    requires BalancedRewrite(segs, rewrite) && i < |segs| && segs[i].literal
    ensures FoundAt(Mapped(segs, rewrite), Refined(segs, rewrite), i, j)
  {
    if i == 0 {
      j := 0;
      FoundFirst(Mapped(segs, rewrite), Refined(segs, rewrite));
    } else {
      var k := RefinedKeepsLiteral(segs[1..], rewrite, i - 1);
      j := |RefinedAt(segs, rewrite, 0)| + k;
      FoundOneLater(segs, rewrite, i, k);
    }
  }

  lemma {:induction false} FoundOneLater(segs: seq<Segment>, rewrite: string -> string, i: nat, k: nat)
    requires BalancedRewrite(segs, rewrite) && 0 < i < |segs|
    requires BalancedRewrite(segs[1..], rewrite)
    requires FoundAt(Mapped(segs[1..], rewrite), Refined(segs[1..], rewrite), i - 1, k)
    ensures FoundAt(Mapped(segs, rewrite), Refined(segs, rewrite), i, |RefinedAt(segs, rewrite, 0)| + k)
  {
    var m, rest := Mapped(segs, rewrite), Mapped(segs[1..], rewrite);
    var first, refined := RefinedAt(segs, rewrite, 0), Refined(segs[1..], rewrite);
    MappedSplits(segs, rewrite);
    FoundLater([m[0]], rest, first, refined, i - 1, k);
    assert [m[0]] + rest == m && Refined(segs, rewrite) == first + refined;
  }

  lemma {:induction false} MappedSplits(segs: seq<Segment>, rewrite: string -> string)
    requires segs != [] && BalancedRewrite(segs, rewrite)
    ensures var m := Mapped(segs, rewrite);
      m == [m[0]] + Mapped(segs[1..], rewrite) && Concat([m[0]]) == Concat(RefinedAt(segs, rewrite, 0))
  {
    RefinedAtSpells(segs, rewrite, 0);
    ConcatOne(Mapped(segs, rewrite)[0]);
  }

  lemma {:induction false} FoundFirst(segs: seq<Segment>, again: seq<Segment>)
    requires segs != [] && again != [] && segs[0] == again[0]
    ensures FoundAt(segs, again, 0, 0)
  {
    assert segs[..0] == again[..0] == [];
  }

  /** Putting two lists with the same text in front moves a find along. */
  lemma {:induction false} FoundLater(a: seq<Segment>, segs: seq<Segment>, b: seq<Segment>, again: seq<Segment>,
                                      i: nat, j: nat)
    requires i < |segs| && FoundAt(segs, again, i, j) && Concat(a) == Concat(b)
    ensures FoundAt(a + segs, b + again, |a| + i, |b| + j)
  {
    assert (a + segs)[..|a| + i] == a + segs[..i] && (b + again)[..|b| + j] == b + again[..j];
    ConcatConcat(a, segs[..i]);
    ConcatConcat(b, again[..j]);
  }

  // ---------------------------------------------- touched literals do not

  lemma {:induction false} AroundParts(front: seq<Segment>, s: Segment, rest: seq<Segment>)
    ensures Concat(front + [s] + rest) == Concat(front) + s.text + Concat(rest)
  {
    ConcatConcat(front + [s], rest);
    ConcatAppend(front, s);
  }

  /** The text around position `k` of a list of segments. */
  lemma {:induction false} AroundSegment(segs: seq<Segment>, k: nat)
    requires k < |segs|
    ensures Concat(segs) == Concat(segs[..k]) + segs[k].text + Concat(segs[k + 1..])
  {
    AroundParts(segs[..k], segs[k], segs[k + 1..]);
    assert segs == segs[..k] + [segs[k]] + segs[k + 1..];
  }

  /** A literal of a segmentation is not followed by a quote. */
  lemma {:induction false} NoQuoteAfter(text: string, again: seq<Segment>, j: nat)
    requires Segmentation(text, again) && j < |again| && again[j].literal
    ensures !StartsWithQuote(Concat(again[j + 1..]))
  {
    if j + 1 < |again| {
      var rest := again[j + 1..];
      assert GoodSegment(again[j + 1], j + 1 == |again| - 1) && !again[j + 1].literal;
      assert Concat(rest) == rest[0].text + Concat(rest[1..]);
    }
  }

  /** A literal of a segmentation is not preceded by a quote. */
  lemma {:induction false} NoQuoteBefore(text: string, again: seq<Segment>, j: nat)
    requires Segmentation(text, again) && j < |again| && again[j].literal
    ensures !EndsWithQuote(Concat(again[..j]))
  {
    if j > 0 {
      var front := again[..j];
      assert GoodSegment(again[j - 1], j - 1 == |again| - 1) && again[j - 1].literal != again[j].literal;
      assert front == front[..j - 1] + [again[j - 1]];
      ConcatAppend(front[..j - 1], again[j - 1]);
    }
  }

  /** A literal that survives has no quote on either side. */
  lemma {:induction false} SurvivorStandsAlone(m: seq<Segment>, again: seq<Segment>, i: nat)
    requires i < |m| && m[i].literal && Segmentation(Concat(m), again) && Survives(m, again, i)
    ensures !EndsWithQuote(Concat(m[..i])) && !StartsWithQuote(Concat(m[i + 1..]))
  {
    var j :| FoundAt(m, again, i, j);
    AroundSegment(m, i);
    AroundSegment(again, j);
    var head := Concat(m[..i]) + m[i].text;
    assert Concat(m[i + 1..]) == Concat(m)[|head|..] == Concat(again[j + 1..]);
    NoQuoteAfter(Concat(m), again, j);
    NoQuoteBefore(Concat(m), again, j);
  }

  lemma {:induction false} StartsWith(a: string, b: string)
    ensures StartsWithQuote(a + b) <==> StartsWithQuote(a) || (a == [] && StartsWithQuote(b))
    ensures EndsWithQuote(a + b) <==> EndsWithQuote(b) || (b == [] && EndsWithQuote(a))
  {
  }

  /** A chunk that is not separated spoils one of the literals next to it. */
  lemma {:induction false} TouchedLiteralIsLost(segs: seq<Segment>,
                                                rewrite: string -> string, again: seq<Segment>, i: nat)
    requires Alternates(segs) && AllGood(segs) && i < |segs| && !segs[i].literal && !SeparatedAt(segs, rewrite, i)
    requires Segmentation(Concat(Mapped(segs, rewrite)), again)
    ensures exists k :: 0 <= k < |segs| && segs[k].literal && !Survives(Mapped(segs, rewrite), again, k)
  {
    var m, out := Mapped(segs, rewrite), rewrite(segs[i].text);
    if i > 0 && (StartsWithQuote(out) || (out == [] && i + 1 < |segs|)) {
      assert segs[i - 1].literal != segs[i].literal && m[i - 1] == segs[i - 1];
      var after := m[i..];
      assert after[0].text == out && after[1..] == m[i + 1..];
      StartsWith(out, Concat(m[i + 1..]));
      if out == [] {
        LiteralFollows(segs, rewrite, i);
      }
      assert StartsWithQuote(Concat(after));
      if Survives(m, again, i - 1) {
        SurvivorStandsAlone(m, again, i - 1);
      }
    } else {
      assert i + 1 < |segs| && EndsWithQuote(out);
      assert segs[i].literal != segs[i + 1].literal && m[i + 1] == segs[i + 1];
      assert m[..i + 1] == m[..i] + [m[i]];
      ConcatAppend(m[..i], m[i]);
      StartsWith(Concat(m[..i]), out);
      if Survives(m, again, i + 1) {
        SurvivorStandsAlone(m, again, i + 1);
      }
    }
  }

  lemma {:induction false} LiteralFollows(segs: seq<Segment>, rewrite: string -> string, i: nat)
    requires Alternates(segs) && AllGood(segs) && i + 1 < |segs| && !segs[i].literal
    ensures StartsWithQuote(Concat(Mapped(segs, rewrite)[i + 1..]))
  {
    var rest := Mapped(segs, rewrite)[i + 1..];
    assert segs[i].literal != segs[i + 1].literal && GoodSegment(segs[i + 1], i + 1 == |segs| - 1);
    assert rest[0] == segs[i + 1] && Concat(rest) == rest[0].text + Concat(rest[1..]);
  }

  /** When a translation keeps the literals. For a rewrite whose output closes its own literals, as the date
      functions it inserts do, every literal of the input is found again, unchanged and at its place, by
      splitting the translated text, if and only if no rewritten chunk touches a literal next to it with a
      quote or vanishes between two of them. */
  lemma {:induction false} TranslationKeepsLiterals(sql: string, segs: seq<Segment>,
                                                    rewrite: string -> string, again: seq<Segment>)
    requires Segmentation(sql, segs) && BalancedRewrite(segs, rewrite)
    requires Segmentation(Concat(Mapped(segs, rewrite)), again)
    ensures (forall i :: 0 <= i < |segs| && segs[i].literal ==> Survives(Mapped(segs, rewrite), again, i))
      <==> Separated(segs, rewrite)
  {
    if Separated(segs, rewrite) {
      RefinedIsSegmentation(segs, rewrite);
      RefinedSpells(segs, rewrite);
      SegmentationUnique(Concat(Mapped(segs, rewrite)), Refined(segs, rewrite), again);
      forall i | 0 <= i < |segs| && segs[i].literal
        ensures Survives(Mapped(segs, rewrite), again, i)
      {
        var j := RefinedKeepsLiteral(segs, rewrite, i);
      }
    } else {
      var i :| 0 <= i < |segs| && !segs[i].literal && !SeparatedAt(segs, rewrite, i);
      TouchedLiteralIsLost(segs, rewrite, again, i);
    }
  }

  // ----------------------------------------------------------- two instances

  lemma {:induction false} NoQuoteIsPaired(s: string)
    requires NoQuote(s)
    ensures Paired(s)
  {
    if s != [] {
      NoQuoteIsPaired(s[1..]);
    }
  }

  function Quoted(body: string): string {
    [Quote] + body + [Quote]
  }

  lemma {:induction false} PairedIsClosed(body: string)
    requires Paired(body)
    ensures ClosedLiteral(Quoted(body))
  {
    var s := Quoted(body);
    assert s[1..|s| - 1] == body;
  }

  lemma {:induction false} QuotedIsClosed(body: string)
    requires NoQuote(body)
    ensures ClosedLiteral(Quoted(body))
  {
    NoQuoteIsPaired(body);
    PairedIsClosed(body);
  }

  // ------------------------------------------------------ the date rewrite

  /** Closed literals inside, no quote at either end. */
  ghost predicate Clean(s: string) {
    Balanced(s) && !StartsWithQuote(s) && !EndsWithQuote(s)
  }

  lemma {:induction false} QuoteFreeIsClean(s: string)
    requires NoQuote(s)
    ensures Clean(s)
  {
    if s == [] {
      assert ClosedParts(s, []);
    } else {
      ConcatOne(Segment(false, s));
      assert ClosedParts(s, [Segment(false, s)]);
    }
  }

  /** A text, a quoted argument and a clean rest make a clean text. */
  lemma {:induction false} ArgumentIsClean(text: string, x: string, rest: string)
    requires text != [] && NoQuote(text) && ClosedLiteral(x) && rest != [] && Clean(rest)
    ensures Clean(text + x + rest)
  {
    var ps := PartsOf(rest);
    EndsShow(rest, ps);
    var front := [Segment(false, text), Segment(true, x)];
    ConcatAppend([Segment(false, text)], Segment(true, x));
    ConcatOne(Segment(false, text));
    assert front == [Segment(false, text)] + [Segment(true, x)];
    ConcatConcat(front, ps);
    JoinAlternates(front, ps);
    JoinGood(front, ps);
    assert ClosedParts(text + x + rest, front + ps);
  }

  /** The last segment of one list and the first of another, both text, become one. */
  function Fused(a: seq<Segment>, b: seq<Segment>): seq<Segment>
    requires a != [] && b != []
  {
    a[..|a| - 1] + [Segment(false, a[|a| - 1].text + b[0].text)] + b[1..]
  }

  lemma {:induction false} FusedSpells(a: seq<Segment>, b: seq<Segment>)
    requires a != [] && b != []
    ensures Concat(Fused(a, b)) == Concat(a) + Concat(b)
  {
    var front, x, y, back := a[..|a| - 1], a[|a| - 1], b[0], b[1..];
    AroundParts(front, Segment(false, x.text + y.text), back);
    ConcatAppend(front, x);
    assert a == front + [x] && Concat(b) == y.text + Concat(back);
    Associates(Concat(front), x.text, y.text);
    Associates(Concat(front) + x.text, y.text, Concat(back));
  }

  lemma {:induction false} FusedIsGood(a: seq<Segment>, b: seq<Segment>)
    requires a != [] && b != [] && Alternates(a) && Alternates(b)
    requires forall i :: 0 <= i < |a| ==> GoodSegment(a[i], false)
    requires forall i :: 0 <= i < |b| ==> GoodSegment(b[i], false)
    requires !a[|a| - 1].literal && !b[0].literal
    ensures Alternates(Fused(a, b)) && forall i :: 0 <= i < |Fused(a, b)| ==> GoodSegment(Fused(a, b)[i], false)
  {
    var f, k := Fused(a, b), |a| - 1;
    assert forall i :: 0 <= i < k ==> f[i] == a[i];
    assert f[k] == Segment(false, a[k].text + b[0].text);
    assert forall i :: k < i < |f| ==> f[i] == b[i - k];
    assert GoodSegment(a[k], false) && GoodSegment(b[0], false);
  }

  lemma {:induction false} ClosedPartsAreGood(s: string, ps: seq<Segment>)
    requires ClosedParts(s, ps)
    ensures Alternates(ps) && forall i :: 0 <= i < |ps| ==> GoodSegment(ps[i], false)
  {
    assert forall i :: 0 <= i < |ps| ==> GoodSegment(ps[i], i == |ps| - 1);
  }

  /** Clean texts side by side are a clean text. */
  lemma {:induction false} CleanJoins(a: string, b: string)
    requires Clean(a) && Clean(b)
    ensures Clean(a + b)
  {
    if a == [] {
      assert a + b == b;
    } else if b == [] {
      assert a + b == a;
    } else {
      var pa, pb := PartsOf(a), PartsOf(b);
      EndsShow(a, pa);
      EndsShow(b, pb);
      ClosedPartsAreGood(a, pa);
      ClosedPartsAreGood(b, pb);
      FusedSpells(pa, pb);
      FusedIsGood(pa, pb);
      assert ClosedParts(a + b, Fused(pa, pb));
      StartsWith(a, b);
    }
  }

  /** What the rewrite of a quote-free chunk is made of: text, the clock that replaces `now()`, and the clock
      with an offset that replaces an interval. */
  datatype Piece = Text(text: string) | Clock | Offset(pattern: string, amount: string)

  predicate QuoteFree(p: Piece) {
    match p
    case Text(text) => NoQuote(text)
    case Clock => true
    case Offset(pattern, amount) => NoQuote(pattern) && NoQuote(amount)
  }

  function Rendered(p: Piece): string {
    var format, now := Quoted("%Y-%m-%d %H:%M:%f"), Quoted("now");
    match p
    case Text(text) => text
    case Clock => "(strftime(" + format + (", " + now + "))")
    case Offset(pattern, amount) =>
      "strftime(" + format + (", " + now + (", printf(" + Quoted(pattern) + (", " + amount + "))")))
  }

  function RenderedAll(ps: seq<Piece>): string {
    if ps == [] then "" else Rendered(ps[0]) + RenderedAll(ps[1..])
  }

  lemma {:induction false} ClockIsClean()
    ensures Clean(Rendered(Clock))
  {
    QuotedIsClosed("%Y-%m-%d %H:%M:%f");
    QuotedIsClosed("now");
    QuoteFreeIsClean("))");
    ArgumentIsClean(", ", Quoted("now"), "))");
    ArgumentIsClean("(strftime(", Quoted("%Y-%m-%d %H:%M:%f"), ", " + Quoted("now") + "))");
  }

  lemma {:induction false} ThreeArguments(a: string, x: string, b: string, y: string, c: string, z: string, d: string)
    requires a != [] && b != [] && c != [] && d != [] && NoQuote(a) && NoQuote(b) && NoQuote(c) && NoQuote(d)
    requires ClosedLiteral(x) && ClosedLiteral(y) && ClosedLiteral(z)
    ensures Clean(a + x + (b + y + (c + z + d)))
  {
    QuoteFreeIsClean(d);
    ArgumentIsClean(c, z, d);
    ArgumentIsClean(b, y, c + z + d);
    ArgumentIsClean(a, x, b + y + (c + z + d));
  }

  lemma {:induction false} OffsetIsClean(pattern: string, amount: string)
    requires NoQuote(pattern) && NoQuote(amount)
    ensures Clean(Rendered(Offset(pattern, amount)))
  {
    var format, now, tail := "%Y-%m-%d %H:%M:%f", "now", ", " + amount + "))";
    QuotedIsClosed(format);
    QuotedIsClosed(now);
    QuotedIsClosed(pattern);
    assert NoQuote(tail);
    ThreeArguments("strftime(", Quoted(format), ", ", Quoted(now), ", printf(", Quoted(pattern), tail);
  }

  /** Quote-free text with any number of clock and interval calls in it is clean. */
  lemma {:induction false} DateRewriteIsClean(ps: seq<Piece>)
    requires forall i :: 0 <= i < |ps| ==> QuoteFree(ps[i])
    ensures Clean(RenderedAll(ps))
  {
    if ps == [] {
      QuoteFreeIsClean("");
    } else {
      match ps[0] {
        case Text(text) => QuoteFreeIsClean(text);
        case Clock => ClockIsClean();
        case Offset(pattern, amount) => OffsetIsClean(pattern, amount);
      }
      assert QuoteFree(ps[0]);
      DateRewriteIsClean(ps[1..]);
      CleanJoins(Rendered(ps[0]), RenderedAll(ps[1..]));
    }
  }

  /** So for a rewrite of this kind a caller need only look for erased chunks: every literal survives if and
      only if no chunk between two literals is rewritten to nothing. */
  lemma {:induction false} DateRewriteKeepsLiterals(sql: string, segs: seq<Segment>, rewrite: string -> string,
                                                    again: seq<Segment>)
    requires Segmentation(sql, segs) && Segmentation(Concat(Mapped(segs, rewrite)), again)
    requires forall i :: 0 <= i < |segs| && !segs[i].literal ==> Clean(rewrite(segs[i].text))
    ensures (forall i :: 0 <= i < |segs| && segs[i].literal ==> Survives(Mapped(segs, rewrite), again, i))
      <==> forall i :: 0 < i < |segs| - 1 && !segs[i].literal ==> rewrite(segs[i].text) != []
  {
    TranslationKeepsLiterals(sql, segs, rewrite, again);
    if Separated(segs, rewrite) {
      forall i | 0 < i < |segs| - 1 && !segs[i].literal
        ensures rewrite(segs[i].text) != []
      {
        assert SeparatedAt(segs, rewrite, i);
      }
    }
  }

  lemma {:induction false} Unquoted(u: string)
    requires ClosedLiteral(u)
    ensures u == Quoted(u[1..|u| - 1])
  {
  }

  lemma {:induction false} QuotedPair(p: string, q: string)
    ensures Quoted(p) + Quoted(q) == Quoted(p + ([Quote, Quote] + q))
  {
    var l, r := Quoted(p) + Quoted(q), Quoted(p + ([Quote, Quote] + q));
    assert |l| == |r| == |p| + |q| + 4;
    forall i | 0 <= i < |l|
      ensures l[i] == r[i]
    {
      if 0 < i <= |p| {
        assert l[i] == p[i - 1];
      } else if |p| + 3 <= i < |l| - 1 {
        assert l[i] == q[i - |p| - 3];
      }
    }
  }

  /** Two literals side by side read as one. */
  lemma {:induction false} TwoLiteralsFuse(u: string, v: string)
    requires ClosedLiteral(u) && ClosedLiteral(v)
    ensures ClosedLiteral(u + v)
  {
    var p, q := u[1..|u| - 1], v[1..|v| - 1];
    var pair := [Quote, Quote];
    DoubledIsPaired(pair, 0);
    assert pair[0..2] == pair;
    PairedAppend(pair, q);
    PairedAppend(p, pair + q);
    Unquoted(u);
    Unquoted(v);
    QuotedPair(p, q);
    PairedIsClosed(p + (pair + q));
  }

  /** What a cast between two literals does: the chunk is erased and the translated text has one literal. */
  lemma {:induction false} ErasedChunkFusesLiterals(u: string, chunk: string, v: string, rewrite: string -> string,
                                                    segs: seq<Segment>, again: seq<Segment>)
    requires ClosedLiteral(u) && ClosedLiteral(v) && chunk != [] && NoQuote(chunk) && rewrite(chunk) == ""
    requires Segmentation(u + chunk + v, segs) && Segmentation(Concat(Mapped(segs, rewrite)), again)
    ensures segs == [Segment(true, u), Segment(false, chunk), Segment(true, v)]
    ensures again == [Segment(true, u + v)]
  {
    var x, y, z := Segment(true, u), Segment(false, chunk), Segment(true, v);
    SpellsThree(x, y, z);
    SegmentationUnique(u + chunk + v, segs, [x, y, z]);
    assert Mapped(segs, rewrite) == [x, Segment(false, ""), z];
    SpellsThree(x, Segment(false, ""), z);
    assert u + "" + v == u + v;
    TwoLiteralsFuse(u, v);
    ConcatOne(Segment(true, u + v));
    SegmentationUnique(u + v, [Segment(true, u + v)], again);
  }

  /** A concrete input: a quoted constant with a cast, directly followed by another. No valid statement puts a
      bare cast between two constants, so only malformed text is fused. */
  lemma {:induction false} CastBetweenLiterals(rewrite: string -> string, segs: seq<Segment>, again: seq<Segment>)
    requires rewrite("::text") == "" && Segmentation(Quoted("a") + "::text" + Quoted("b"), segs)
    requires Segmentation(Concat(Mapped(segs, rewrite)), again)
    ensures |segs| == 3 && |again| == 1
  {
    QuotedIsClosed("a");
    QuotedIsClosed("b");
    ErasedChunkFusesLiterals(Quoted("a"), "::text", Quoted("b"), rewrite, segs, again);
  }

  lemma {:induction false} SpellsThree(x: Segment, y: Segment, z: Segment)
    ensures Concat([x, y, z]) == x.text + y.text + z.text
  {
    ConcatAppend([x, y], z);
    ConcatAppend([x], y);
    ConcatOne(x);
    assert [x, y] + [z] == [x, y, z] && [x] + [y] == [x, y];
  }
}
