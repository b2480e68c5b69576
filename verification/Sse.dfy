/**
 * JSON values and the text primitives the two ends of the event stream share.
 */
module SseText {
  import opened Wrappers

  /** A JSON value; a number is a decimal mantissa and exponent. */
  datatype Json =
    | Null
    | Bool(b: bool)
    | Num(mantissa: int, exponent: int)
    | Str(s: string)
    | Arr(items: seq<Json>)
    | Obj(fields: map<string, Json>)

  /** `String.prototype.trim` strips these: white space and line terminators. */
  predicate IsJsSpace(c: char) {
    || '\t' <= c <= '\r' || c == ' ' || c == '\U{A0}' || c == '\U{1680}' || '\U{2000}' <= c <= '\U{200A}'
    || c == '\U{2028}' || c == '\U{2029}' || c == '\U{202F}' || c == '\U{205F}' || c == '\U{3000}' || c == '\U{FEFF}'
  }

  /** `str.strip` strips these: the control separators and U+0085, but not U+FEFF. */
  predicate IsPySpace(c: char) {
    || '\t' <= c <= '\r' || '\U{1C}' <= c <= ' ' || c == '\U{85}' || c == '\U{A0}' || c == '\U{1680}'
    || '\U{2000}' <= c <= '\U{200A}' || c == '\U{2028}' || c == '\U{2029}' || c == '\U{202F}' || c == '\U{205F}'
    || c == '\U{3000}'
  }

  function TrimStart(space: char -> bool, s: string): string {
    if s != "" && space(s[0]) then TrimStart(space, s[1..]) else s
  }

  function TrimEnd(space: char -> bool, s: string): string {
    if s != "" && space(s[|s| - 1]) then TrimEnd(space, s[..|s| - 1]) else s
  }

  function Trim(space: char -> bool, s: string): string {
    TrimEnd(space, TrimStart(space, s))
  }

  /** No space at either end. */
  predicate Trimmed(space: char -> bool, s: string) {
    s == "" || (!space(s[0]) && !space(s[|s| - 1]))
  }

  lemma {:induction false} TrimStartKeeps(space: char -> bool, s: string)
    ensures var t := TrimStart(space, s);
            && (t == "" || !space(t[0])) && (t != "" ==> t[|t| - 1] == s[|s| - 1])
            && forall c :: c in t ==> c in s
  {
    if s != "" && space(s[0]) {
      TrimStartKeeps(space, s[1..]);
    }
  }

  lemma {:induction false} TrimEndKeeps(space: char -> bool, s: string)
    ensures var t := TrimEnd(space, s);
            && (t == "" || !space(t[|t| - 1])) && (t != "" ==> t[0] == s[0])
            && forall c :: c in t ==> c in s
  {
    if s != "" && space(s[|s| - 1]) {
      TrimEndKeeps(space, s[..|s| - 1]);
    }
  }

  lemma TrimIsTrimmed(space: char -> bool, s: string)
    ensures Trimmed(space, Trim(space, s)) && forall c :: c in Trim(space, s) ==> c in s
  {
    TrimStartKeeps(space, s);
    TrimEndKeeps(space, TrimStart(space, s));
  }

  ghost predicate AllSpace(space: char -> bool, s: string) {
    forall i :: 0 <= i < |s| ==> space(s[i])
  }

  lemma {:induction false} TrimStartTakes(space: char -> bool, s: string) returns (head: string)
    ensures s == head + TrimStart(space, s) && AllSpace(space, head)
  {
    if s != "" && space(s[0]) {
      var rest := TrimStartTakes(space, s[1..]);
      head := [s[0]] + rest;
    } else {
      head := "";
    }
  }

  lemma {:induction false} TrimEndTakes(space: char -> bool, s: string) returns (tail: string)
    ensures s == TrimEnd(space, s) + tail && AllSpace(space, tail)
  {
    if s != "" && space(s[|s| - 1]) {
      var rest := TrimEndTakes(space, s[..|s| - 1]);
      tail := rest + [s[|s| - 1]];
    } else {
      tail := "";
    }
  }

  /** Trimming takes white space off both ends and nothing else. */
  lemma TrimTakesSpace(space: char -> bool, s: string) returns (head: string, tail: string)
    ensures s == head + Trim(space, s) + tail && AllSpace(space, head) && AllSpace(space, tail)
    ensures Trimmed(space, Trim(space, s))
  {
    head := TrimStartTakes(space, s);
    tail := TrimEndTakes(space, TrimStart(space, s));
    TrimIsTrimmed(space, s);
    assert s == head + (Trim(space, s) + tail) == head + Trim(space, s) + tail;
  }

  /** The two ends of the stream take the same characters for white space, but for these six. */
  lemma SpacesDifferAt(c: char)
    ensures IsPySpace(c) != IsJsSpace(c) <==>
            '\U{1C}' <= c <= '\U{1F}' || c == '\U{85}' || c == '\U{FEFF}'
    ensures IsPySpace(' ') && IsPySpace('\t') && IsPySpace('\r') && IsPySpace('\n')
    ensures '!' <= c <= '~' ==> !IsPySpace(c) && !IsJsSpace(c)
  {}

  /** `s.split("\n")`: the pieces between newlines, at least one. */
  function SplitLines(s: string): (pieces: seq<string>)
    ensures |pieces| >= 1
  {
    if s == "" then [""]
    else
      var rest := SplitLines(s[1..]);
      if s[0] == '\n' then [""] + rest else [[s[0]] + rest[0]] + rest[1..]
  }

  /** The complete lines, without the piece after the last newline. */
  function Complete(pieces: seq<string>): seq<string>
    requires pieces != []
  {
    pieces[..|pieces| - 1]
  }

  function Last(pieces: seq<string>): string
    requires pieces != []
  {
    pieces[|pieces| - 1]
  }

  /** The pieces of two adjoining texts: the last piece of one runs on into the first of the other. */
  function Adjoin(p: seq<string>, q: seq<string>): seq<string>
    requires p != [] && q != []
  {
    Complete(p) + [Last(p) + q[0]] + q[1..]
  }

  lemma AdjoinAfterNewline(p: seq<string>, q: seq<string>)
    requires p != [] && q != []
    ensures Adjoin([""] + p, q) == [""] + Adjoin(p, q)
  {
    assert Complete([""] + p) == [""] + Complete(p);
  }

  lemma AdjoinAfterChar(c: char, p: seq<string>, q: seq<string>)
    requires p != [] && q != []
    ensures Adjoin([[c] + p[0]] + p[1..], q) == [[c] + Adjoin(p, q)[0]] + Adjoin(p, q)[1..]
  {
    var cp := [[c] + p[0]] + p[1..];
    if |p| == 1 {
      assert cp == [[c] + p[0]] && Complete(cp) == [] && Complete(p) == [];
      assert ([c] + p[0]) + q[0] == [c] + (p[0] + q[0]);
    } else {
      assert Complete(cp) == [[c] + p[0]] + p[1..|p| - 1] && Last(cp) == Last(p);
      assert Adjoin(p, q)[0] == p[0] && Adjoin(p, q)[1..] == p[1..|p| - 1] + [Last(p) + q[0]] + q[1..];
    }
  }

  /** Splitting a text in two only cuts the line the cut falls into. */
  lemma {:induction false} SplitConcat(a: string, b: string)
    ensures SplitLines(a + b) == Adjoin(SplitLines(a), SplitLines(b))
  {
    if a == "" {
      assert a + b == b;
      assert "" + SplitLines(b)[0] == SplitLines(b)[0];
    } else {
      SplitConcat(a[1..], b);
      assert (a + b)[0] == a[0] && (a + b)[1..] == a[1..] + b;
      if a[0] == '\n' {
        AdjoinAfterNewline(SplitLines(a[1..]), SplitLines(b));
      } else {
        AdjoinAfterChar(a[0], SplitLines(a[1..]), SplitLines(b));
      }
    }
  }

  lemma {:induction false} PiecesHaveNoNewline(s: string)
    ensures forall i :: 0 <= i < |SplitLines(s)| ==> '\n' !in SplitLines(s)[i]
  {
    if s != "" {
      PiecesHaveNoNewline(s[1..]);
    }
  }

  lemma {:induction false} NoNewlineNoSplit(s: string)
    requires '\n' !in s
    ensures SplitLines(s) == [s]
  {
    if s != "" {
      NoNewlineNoSplit(s[1..]);
      assert [s[0]] + s[1..] == s;
    }
  }

  /** The pieces put back together, a newline between each two. */
  function Join(pieces: seq<string>): string {
    if pieces == [] then ""
    else if |pieces| == 1 then pieces[0]
    else pieces[0] + "\n" + Join(pieces[1..])
  }

  /** Splitting loses nothing: the pieces hold no newline and joined by newlines they are the text. */
  lemma {:induction false} JoinSplit(s: string)
    ensures Join(SplitLines(s)) == s && forall i :: 0 <= i < |SplitLines(s)| ==> '\n' !in SplitLines(s)[i]
  {
    PiecesHaveNoNewline(s);
    if s != "" {
      var rest := SplitLines(s[1..]);
      JoinSplit(s[1..]);
      assert s == [s[0]] + s[1..];
      if s[0] == '\n' {
        assert ([""] + rest)[1..] == rest && "" + "\n" + Join(rest) == s;
      } else if |rest| > 1 {
        assert ([[s[0]] + rest[0]] + rest[1..])[1..] == rest[1..];
        assert ([s[0]] + rest[0]) + "\n" + Join(rest[1..]) == [s[0]] + (rest[0] + "\n" + Join(rest[1..]));
      }
    }
  }

  /** Splitting `a + b` at once, or `a` first and then what is left of it with `b`. */
  lemma SplitTwice(a: string, b: string)
    ensures var p, w := SplitLines(a), SplitLines(a + b);
            var r := SplitLines(Last(p) + b);
            Complete(w) == Complete(p) + Complete(r) && Last(w) == Last(r)
  {
    var p, q := SplitLines(a), SplitLines(b);
    SplitConcat(a, b);
    PiecesHaveNoNewline(a);
    NoNewlineNoSplit(Last(p));
    SplitConcat(Last(p), b);
    AdjoinSplits(p, q);
    CompleteConcat(Complete(p), Adjoin([Last(p)], q));
  }

  lemma AdjoinSplits(p: seq<string>, q: seq<string>)
    requires p != [] && q != []
    ensures Adjoin(p, q) == Complete(p) + Adjoin([Last(p)], q)
  {
    assert Complete([Last(p)]) == [];
  }

  lemma CompleteConcat(a: seq<string>, b: seq<string>)
    requires b != []
    ensures Complete(a + b) == a + Complete(b) && Last(a + b) == Last(b)
  {}

  function Concat(chunks: seq<string>): string {
    if chunks == [] then "" else chunks[0] + Concat(chunks[1..])
  }

  /** Run a line machine over lines: its last state and everything it emitted. */
  function Fold<S, E>(step: (S, string) -> (S, seq<E>), s: S, lines: seq<string>): (S, seq<E>) {
    if lines == [] then (s, []) else
    var (before, emitted) := Fold(step, s, lines[..|lines| - 1]);
    var (after, more) := step(before, lines[|lines| - 1]);
    (after, emitted + more)
  }

  lemma {:induction false} FoldConcat<S, E>(step: (S, string) -> (S, seq<E>), s: S, a: seq<string>, b: seq<string>)
    ensures var (mid, first) := Fold(step, s, a);
            var (end, second) := Fold(step, mid, b);
            Fold(step, s, a + b) == (end, first + second)
    decreases |b|
  {
    if b == [] {
      assert a + b == a;
      assert Fold(step, s, a).1 + [] == Fold(step, s, a).1;
    } else {
      var n := |b| - 1;
      FoldConcat(step, s, a, b[..n]);
      assert (a + b)[..|a + b| - 1] == a + b[..n] && (a + b)[|a + b| - 1] == b[n];
      var (mid, first) := Fold(step, s, a);
      var (before, emitted) := Fold(step, mid, b[..n]);
      assert first + (emitted + step(before, b[n]).1) == (first + emitted) + step(before, b[n]).1;
    }
  }

  lemma FoldThree<S, E>(step: (S, string) -> (S, seq<E>), s: S, a: string, b: string, c: string)
    ensures var (s1, e1) := step(s, a);
            var (s2, e2) := step(s1, b);
            var (s3, e3) := step(s2, c);
            Fold(step, s, [a, b, c]) == (s3, e1 + e2 + e3)
  {
    assert [a, b, c][..2] == [a, b] && [a, b][..1] == [a] && [a][..0] == [];
    assert Fold(step, s, [a]) == (step(s, a).0, [] + step(s, a).1);
    assert [] + step(s, a).1 == step(s, a).1;
    assert Fold(step, s, [a, b]).0 == step(step(s, a).0, b).0;
  }
}
