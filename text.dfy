/**
 * The two pieces of Python text handling the wrapper relies on:
 * `file.readlines()` (lines keep their terminating '\n') and
 * `str.split()` with no separator (maximal runs of non-whitespace).
 */
module Text {

  import opened Wrappers

  /** The characters for which Python's `str.isspace()` holds. */
  predicate IsSpace(c: char) {
    || ('\t' <= c <= '\r')
    || ('\U{1C}' <= c <= ' ')
    || c == '\U{85}' || c == '\U{A0}' || c == '\U{1680}'
    || ('\U{2000}' <= c <= '\U{200A}')
    || c == '\U{2028}' || c == '\U{2029}' || c == '\U{202F}'
    || c == '\U{205F}' || c == '\U{3000}'
  }

  predicate NoSpace(w: string) {
    forall i | 0 <= i < |w| :: !IsSpace(w[i])
  }

  /** The text left once every whitespace character is dropped. */
  function Squeeze(s: string): string {
    if s == [] then []
    else if IsSpace(s[0]) then Squeeze(s[1..])
    else [s[0]] + Squeeze(s[1..])
  }

  /** The strings of `ls`, one after the other. */
  function Concat(ls: seq<string>): string {
    if ls == [] then [] else ls[0] + Concat(ls[1..])
  }

  lemma {:induction false} ConcatAppend(a: seq<string>, b: seq<string>)
    ensures Concat(a + b) == Concat(a) + Concat(b)
  {
    if a != [] {
      assert (a + b)[1..] == a[1..] + b;
      ConcatAppend(a[1..], b);
    } else {
      assert a + b == b;
    }
  }

  // ---------------------------------------------------------------------
  // str.split()

  /** The longest prefix of `s` that holds no whitespace. */
  function Word(s: string): (w: string)
    ensures w <= s && NoSpace(w)
    ensures |w| == |s| || IsSpace(s[|w|])
  {
    if s == [] || IsSpace(s[0]) then [] else [s[0]] + Word(s[1..])
  }

  /** `s.split()`: the maximal runs of non-whitespace characters, in order. */
  function Tokens(s: string): (ts: seq<string>)
    ensures forall i | 0 <= i < |ts| :: ts[i] != [] && NoSpace(ts[i])
    decreases |s|
  {
    if s == [] then []
    else if IsSpace(s[0]) then Tokens(s[1..])
    else
      var w := Word(s);
      [w] + Tokens(s[|w|..])
  }

  lemma {:induction false} SqueezeAppend(a: string, b: string)
    ensures Squeeze(a + b) == Squeeze(a) + Squeeze(b)
  {
    if a != [] {
      assert (a + b)[1..] == a[1..] + b;
      SqueezeAppend(a[1..], b);
    } else {
      assert a + b == b;
    }
  }

  lemma {:induction false} SqueezeNoSpace(w: string)
    requires NoSpace(w)
    ensures Squeeze(w) == w
  {
    if w != [] {
      SqueezeNoSpace(w[1..]);
    }
  }

  /** Splitting loses nothing but whitespace: the tokens, put back together, are `s` without its whitespace. */
  lemma {:induction false} TokensCover(s: string)
    ensures Concat(Tokens(s)) == Squeeze(s)
    decreases |s|
  {
    if s == [] {
    } else if IsSpace(s[0]) {
      TokensCover(s[1..]);
    } else {
      var w := Word(s);
      TokensCover(s[|w|..]);
      assert s == w + s[|w|..];
      SqueezeAppend(w, s[|w|..]);
      SqueezeNoSpace(w);
      assert [w] + Tokens(s[|w|..]) == Tokens(s);
      assert Concat([w] + Tokens(s[|w|..])) == w + Concat(Tokens(s[|w|..]));
    }
  }

  lemma {:induction false} WordOfWordThenSpace(w: string, rest: string)
    requires NoSpace(w)
    requires rest == [] || IsSpace(rest[0])
    ensures Word(w + rest) == w
  {
    if w != [] {
      assert (w + rest)[1..] == w[1..] + rest;
      WordOfWordThenSpace(w[1..], rest);
    } else {
      assert w + rest == rest;
    }
  }

  /** A word followed by whitespace (or nothing) is the first token. */
  lemma TokensOfWordThenSpace(w: string, rest: string)
    requires w != [] && NoSpace(w)
    requires rest == [] || IsSpace(rest[0])
    ensures Tokens(w + rest) == [w] + Tokens(rest)
  {
    WordOfWordThenSpace(w, rest);
    assert (w + rest)[|w|..] == rest;
  }

  /** Words written out with one blank between them and a line end after. */
  function Unwords(ws: seq<string>): string {
    if ws == [] then "\n"
    else if |ws| == 1 then ws[0] + "\n"
    else ws[0] + " " + Unwords(ws[1..])
  }

  /** Splitting undoes `Unwords`: `" ".join(ws).split() == ws` for words without whitespace. */
  lemma {:induction false} TokensUnwords(ws: seq<string>)
    requires forall i | 0 <= i < |ws| :: ws[i] != [] && NoSpace(ws[i])
    ensures Tokens(Unwords(ws)) == ws
  {
    if ws == [] {
      assert Tokens("\n") == Tokens("\n"[1..]);
    } else if |ws| == 1 {
      TokensOfWordThenSpace(ws[0], "\n");
      assert Tokens("\n") == Tokens("\n"[1..]);
    } else {
      var rest := " " + Unwords(ws[1..]);
      assert Unwords(ws) == ws[0] + rest;
      TokensOfWordThenSpace(ws[0], rest);
      assert Tokens(rest) == Tokens(rest[1..]);
      assert rest[1..] == Unwords(ws[1..]);
      TokensUnwords(ws[1..]);
    }
  }

  // ---------------------------------------------------------------------
  // file.readlines()

  /** A line as readlines() yields it: not empty, and a '\n' at most at its end. */
  predicate IsFragment(l: string) {
    l != [] && forall i | 0 <= i < |l| - 1 :: l[i] != '\n'
  }

  /** A complete line: a fragment that ends with '\n'. */
  predicate IsLine(l: string) {
    IsFragment(l) && l[|l| - 1] == '\n'
  }

  /** The length of the first line of `t`, its '\n' included when there is one. */
  function LineEnd(t: string): (n: nat)
    requires t != []
    ensures 0 < n <= |t| && IsFragment(t[..n])
    ensures t[n - 1] == '\n' || n == |t|
  {
    if t[0] == '\n' || |t| == 1 then 1
    else
      var n := 1 + LineEnd(t[1..]);
      assert t[..n] == [t[0]] + t[1..][..n - 1];
      n
  }

  /** `readlines()` of a file whose contents are `t`. */
  function ReadLines(t: string): (ls: seq<string>)
    ensures forall i | 0 <= i < |ls| :: IsFragment(ls[i])
    ensures forall i | 0 <= i < |ls| - 1 :: IsLine(ls[i])
    decreases |t|
  {
    if t == [] then []
    else
      var n := LineEnd(t);
      [t[..n]] + ReadLines(t[n..])
  }

  /** readlines() loses nothing: its lines, put back together, are the file. */
  lemma {:induction false} ConcatReadLines(t: string)
    ensures Concat(ReadLines(t)) == t
    decreases |t|
  {
    if t != [] {
      var n := LineEnd(t);
      ConcatReadLines(t[n..]);
      assert ReadLines(t)[1..] == ReadLines(t[n..]);
      assert t == t[..n] + t[n..];
    }
  }

  lemma {:induction false} LineEndOfLine(l: string, rest: string)
    requires IsLine(l)
    ensures LineEnd(l + rest) == |l|
    decreases |l|
  {
    if |l| > 1 {
      assert (l + rest)[1..] == l[1..] + rest;
      assert IsLine(l[1..]);
      LineEndOfLine(l[1..], rest);
    }
  }

  /** readlines() of complete lines written one after the other gives those lines back. */
  lemma {:induction false} ReadLinesConcat(ls: seq<string>)
    requires forall i | 0 <= i < |ls| :: IsLine(ls[i])
    ensures ReadLines(Concat(ls)) == ls
  {
    if ls != [] {
      var t := Concat(ls);
      assert t == ls[0] + Concat(ls[1..]);
      LineEndOfLine(ls[0], Concat(ls[1..]));
      assert t[..|ls[0]|] == ls[0];
      assert t[|ls[0]|..] == Concat(ls[1..]);
      ReadLinesConcat(ls[1..]);
    }
  }

  // ---------------------------------------------------------------------
  // Fixed text around a value

  /** The text between a fixed prefix and a fixed suffix of `line`, if it has both. */
  function Between(line: string, pre: string, post: string): (r: Option<string>)
    ensures r.Some? <==> |pre| + |post| <= |line| && pre <= line && line[|line| - |post|..] == post
    ensures r.Some? ==> line == pre + r.value + post
  {
    if |pre| + |post| <= |line| && pre <= line && line[|line| - |post|..] == post
    then
      var v := line[|pre|..|line| - |post|];
      assert line == line[..|pre|] + v + line[|line| - |post|..];
      Some(v)
    else None
  }

  lemma BetweenOfWrapped(pre: string, v: string, post: string)
    ensures Between(pre + v + post, pre, post) == Some(v)
  {
    var line := pre + v + post;
    assert line[..|pre|] == pre;
    assert line[|line| - |post|..] == post;
    assert line[|pre|..|line| - |post|] == v;
  }
  // ---------------------------------------------------------------------
  // Line layouts: fixed text around one value per line

  predicate NoNewline(s: string) {
    '\n' !in s
  }

  /** One line of a fixed layout: the text before the value and the text after it; '\n' ends the line. */
  datatype Slot = Slot(pre: string, post: string)

  predicate ValidSlot(s: Slot) {
    NoNewline(s.pre) && NoNewline(s.post)
  }

  predicate ValidLayout(layout: seq<Slot>) {
    forall i | 0 <= i < |layout| :: ValidSlot(layout[i])
  }

  /** One line of a layout, filled with its value. */
  function FillSlot(s: Slot, v: string): string {
    s.pre + v + s.post + "\n"
  }

  /** The lines of a layout filled with one value per slot. */
  function Fill(layout: seq<Slot>, vs: seq<string>): (ls: seq<string>)
    requires |vs| == |layout|
    ensures |ls| == |layout|
  {
    seq(|layout|, i requires 0 <= i < |layout| => FillSlot(layout[i], vs[i]))
  }

  lemma FillAppend(a: seq<Slot>, b: seq<Slot>, va: seq<string>, vb: seq<string>)
    requires |va| == |a| && |vb| == |b|
    ensures Fill(a + b, va + vb) == Fill(a, va) + Fill(b, vb)
  {
  }

  lemma ValidLayoutAppend(a: seq<Slot>, b: seq<Slot>)
    requires ValidLayout(a) && ValidLayout(b)
    ensures ValidLayout(a + b)
  {
    forall i | 0 <= i < |a + b| ensures ValidSlot((a + b)[i]) {
      if i >= |a| {
        assert (a + b)[i] == b[i - |a|];
      }
    }
  }

  // Solver hint: an associativity instance that keeps concatenation proofs cheap.
  lemma Assoc(a: string, b: string, c: string)
    ensures a + b + c == a + (b + c)
  {
  }

  lemma ConcatSnoc(ls: seq<string>, l: string)
    ensures Concat(ls + [l]) == Concat(ls) + l
  {
    ConcatAppend(ls, [l]);
    ConcatCons(l, []);
    assert [l] == [l] + [];
  }

  lemma ConcatCons(l: string, rest: seq<string>)
    ensures Concat([l] + rest) == l + Concat(rest)
  {
    assert ([l] + rest)[1..] == rest;
  }

  lemma Concat2(a: string, b: string)
    ensures Concat([a, b]) == a + b
  {
    ConcatSnoc([a], b);
    ConcatSnoc([], a);
    assert [] + [a] == [a] && [a] + [b] == [a, b];
  }

  lemma Concat4(a: string, b: string, c: string, d: string)
    ensures Concat([a, b, c, d]) == a + b + c + d
  {
    Concat2(a, b);
    ConcatSnoc([a, b], c);
    ConcatSnoc([a, b, c], d);
    assert [a, b] + [c] == [a, b, c] && [a, b, c] + [d] == [a, b, c, d];
  }

  lemma Concat5(a: string, b: string, c: string, d: string, e: string)
    ensures Concat([a, b, c, d, e]) == a + b + c + d + e
  {
    Concat4(a, b, c, d);
    ConcatSnoc([a, b, c, d], e);
    assert [a, b, c, d] + [e] == [a, b, c, d, e];
  }

  /** Reads a text back against a layout: one value per line, or None when a line does not fit. */
  function Unfill(layout: seq<Slot>, text: string): (r: Option<seq<string>>)
    ensures r.Some? ==> |r.value| == |layout|
  {
    var ls := ReadLines(text);
    if |ls| == |layout| && forall i | 0 <= i < |ls| :: Between(ls[i], layout[i].pre, layout[i].post + "\n").Some?
    then Some(seq(|ls|, i requires 0 <= i < |ls| => Between(ls[i], layout[i].pre, layout[i].post + "\n").value))
    else None
  }

  lemma FilledSlotIsLine(s: Slot, v: string)
    requires ValidSlot(s) && NoNewline(v)
    ensures IsLine(FillSlot(s, v))
  {
    var l := FillSlot(s, v);
    forall i | 0 <= i < |l| - 1 ensures l[i] != '\n' {
      if i < |s.pre| {
        assert l[i] == s.pre[i] && s.pre[i] in s.pre;
      } else if i < |s.pre| + |v| {
        assert l[i] == v[i - |s.pre|] && v[i - |s.pre|] in v;
      } else {
        assert l[i] == s.post[i - |s.pre| - |v|] && s.post[i - |s.pre| - |v|] in s.post;
      }
    }
  }

  /** Every line of a filled layout is a complete line. */
  lemma FillIsLines(layout: seq<Slot>, vs: seq<string>)
    requires ValidLayout(layout) && |vs| == |layout|
    requires forall i | 0 <= i < |vs| :: NoNewline(vs[i])
    ensures forall i | 0 <= i < |layout| :: IsLine(Fill(layout, vs)[i])
  {
    forall i | 0 <= i < |layout| ensures IsLine(Fill(layout, vs)[i]) {
      FilledSlotIsLine(layout[i], vs[i]);
    }
  }

  /** Each line of a filled layout gives back its value between its slot's fixed texts. */
  lemma FillBetween(layout: seq<Slot>, vs: seq<string>)
    requires |vs| == |layout|
    ensures forall i | 0 <= i < |layout| ::
      Between(Fill(layout, vs)[i], layout[i].pre, layout[i].post + "\n") == Some(vs[i])
  {
    var ls := Fill(layout, vs);
    forall i | 0 <= i < |layout| ensures Between(ls[i], layout[i].pre, layout[i].post + "\n") == Some(vs[i]) {
      assert ls[i] == layout[i].pre + vs[i] + (layout[i].post + "\n");
      BetweenOfWrapped(layout[i].pre, vs[i], layout[i].post + "\n");
    }
  }

  /** Reading a filled layout back gives the values that filled it. */
  lemma UnfillFill(layout: seq<Slot>, vs: seq<string>)
    requires ValidLayout(layout) && |vs| == |layout|
    requires forall i | 0 <= i < |vs| :: NoNewline(vs[i])
    ensures Unfill(layout, Concat(Fill(layout, vs))) == Some(vs)
  {
    var ls := Fill(layout, vs);
    FillIsLines(layout, vs);
    ReadLinesConcat(ls);
    FillBetween(layout, vs);
    var got := seq(|ls|, i requires 0 <= i < |ls| => Between(ls[i], layout[i].pre, layout[i].post + "\n").value);
    assert got == vs;
  }

  /** A text that reads back against a layout is exactly that layout filled with what was read. */
  lemma FillUnfill(layout: seq<Slot>, text: string)
    requires Unfill(layout, text).Some?
    ensures Concat(Fill(layout, Unfill(layout, text).value)) == text
  {
    var ls := ReadLines(text);
    var vs := Unfill(layout, text).value;
    forall i | 0 <= i < |ls| ensures Fill(layout, vs)[i] == ls[i] {
      assert vs[i] == Between(ls[i], layout[i].pre, layout[i].post + "\n").value;
      assert ls[i] == layout[i].pre + vs[i] + (layout[i].post + "\n");
    }
    assert Fill(layout, vs) == ls;
    ConcatReadLines(text);
  }
}
