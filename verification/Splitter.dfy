/**
  The migration splitter (internal/migrate/migrate.go).

  The program jumps over whole dollar-quote delimiters and looks ahead for tags,
  closing tags and blank lines. The specification here does neither: it is an
  online lexer that reads one byte at a time and never looks back or ahead for
  a delimiter. `Split` is the program; it is proved to compute exactly the
  chunks the lexer defines. Characters stand for bytes.
 */
module Splitter {
  import opened Text

  const DOLLAR := '$'
  const SEMI := ';'
  const BREAK: string := ";\n\n"

  predicate IsTagChar(c: char) {
    c == '_' || 'a' <= c <= 'z' || 'A' <= c <= 'Z' || '0' <= c <= '9'
  }

  // ---------------------------------------------------------------------------
  // Specification: an online lexer
  // ---------------------------------------------------------------------------

  /** Where the lexer stands after the bytes read so far: outside any quote, in
      what may become an opening tag, or inside a quote with `matched` bytes of
      the closing tag already seen. */
  datatype Mode = Plain | Opening(open: string) | Quoted(tag: string, matched: nat)

  ghost predicate IsTag(t: string) {
    && |t| >= 2 && t[0] == DOLLAR && t[|t| - 1] == DOLLAR
    && forall i :: 0 < i < |t| - 1 ==> IsTagChar(t[i])
  }

  ghost predicate Valid(m: Mode) {
    match m
    case Plain => true
    case Opening(o) => |o| >= 1 && o[0] == DOLLAR && forall i :: 0 < i < |o| ==> IsTagChar(o[i])
    case Quoted(t, k) => IsTag(t) && k < |t|
  }

  ghost function Step(m: Mode, c: char): (n: Mode)
    ensures Valid(m) ==> Valid(n)
  {
    match m
    case Plain => if c == DOLLAR then Opening([c]) else Plain
    case Opening(o) =>
      if IsTagChar(c) then Opening(o + [c])
      else if c == DOLLAR then Quoted(o + [c], 0)
      else Plain
    case Quoted(t, k) =>
      if k < |t| && c == t[k] then (if k + 1 == |t| then Plain else Quoted(t, k + 1))
      else Quoted(t, if c == DOLLAR then 1 else 0)
  }

  ghost function Lex(m: Mode, s: string): (n: Mode)
    ensures Valid(m) ==> Valid(n)
    decreases |s|
  {
    if s == "" then m else Lex(Step(m, s[0]), s[1..])
  }

  /** A semicolon ends a half-read opening tag, so only a quote hides it. */
  ghost predicate Outside(m: Mode) {
    !m.Quoted?
  }

  ghost predicate CutsHere(m: Mode, s: string) {
    Outside(m) && BREAK <= s
  }

  ghost function Prepend(p: string, cs: seq<string>): (r: seq<string>)
    requires |cs| > 0
  {
    [p + cs[0]] + cs[1..]
  }

  /** The chunks of `s` when the lexer reaches it in mode `m`. */
  ghost function Chunks(m: Mode, s: string): (cs: seq<string>)
    ensures |cs| > 0
    decreases |s|
  {
    if s == "" then [""]
    else
      var rest := Chunks(Step(m, s[0]), s[1..]);
      if CutsHere(m, s) then [s[..1]] + rest else Prepend(s[..1], rest)
  }

  ghost function Join(cs: seq<string>): string {
    if cs == [] then "" else cs[0] + Join(cs[1..])
  }

  // ---------------------------------------------------------------------------
  // What the lookahead of the program sees, in terms of the lexer
  // ---------------------------------------------------------------------------

  /** `s` opens a quote with tag `t`. */
  ghost predicate OpensWith(s: string, t: string) {
    IsTag(t) && t <= s
  }

  /** dollarTagAt: the opening tag at the front of `s`, or "" when there is none. */
  method DollarTagAt(s: string) returns (t: string)
    requires |s| > 0 && s[0] == DOLLAR
    ensures t != "" ==> OpensWith(s, t)
    ensures t == "" ==> forall u :: IsTag(u) ==> !OpensWith(s, u)
  {
    var j := 1;
    while j < |s| && IsTagChar(s[j])
      invariant 1 <= j <= |s|
      invariant forall i :: 0 < i < j ==> IsTagChar(s[i])
    {
      j := j + 1;
    }
    if j < |s| && s[j] == DOLLAR {
      return s[..j + 1];
    }
    forall u | IsTag(u) ensures !OpensWith(s, u) {
      var e := |u| - 1;
      assert e < j ==> e < |s| && s[e] != u[e];
      assert e > j ==> (j < |s| ==> s[j] != u[j]);
    }
    return "";
  }

  /** From the middle of an opening tag, the rest of the tag is consumed whole. */
  lemma {:induction false} OpeningConsumed(o: string, r: string, s: string)
    requires Valid(Opening(o)) && r != "" && IsTag(o + r)
    ensures Chunks(Opening(o), r + s) == Prepend(r, Chunks(Quoted(o + r, 0), s))
    decreases |r|
  {
    var c := r[0];
    assert (o + r)[|o|] == c;
    assert (r + s)[0] == c && (r + s)[..1] == [c] && (r + s)[1..] == r[1..] + s;
    if |r| == 1 {
      assert r == [c] && r[1..] + s == s;
    } else {
      assert (o + [c]) + r[1..] == o + r;
      OpeningConsumed(o + [c], r[1..], s);
      assert [c] + r[1..] == r;
      PrependPrepend([c], r[1..], Chunks(Quoted(o + r, 0), s));
    }
  }

  lemma PrependPrepend(p: string, q: string, cs: seq<string>)
    requires |cs| > 0
    ensures Prepend(p, Prepend(q, cs)) == Prepend(p + q, cs)
  {
    assert p + (q + cs[0]) == (p + q) + cs[0];
  }

  lemma OpenQuote(t: string, s: string)
    requires IsTag(t)
    ensures Chunks(Plain, t + s) == Prepend(t, Chunks(Quoted(t, 0), s))
  {
    assert [DOLLAR] + t[1..] == t;
    assert (t + s)[0] == DOLLAR && (t + s)[..1] == [DOLLAR] && (t + s)[1..] == t[1..] + s;
    OpeningConsumed([DOLLAR], t[1..], s);
    PrependPrepend([DOLLAR], t[1..], Chunks(Quoted(t, 0), s));
  }

  /** A half-read tag that will never be one changes nothing. */
  lemma {:induction false} DoomedOpening(o: string, s: string)
    requires Valid(Opening(o))
    requires forall u :: IsTag(u) ==> !OpensWith(o + s, u)
    ensures Chunks(Opening(o), s) == Chunks(Plain, s)
    decreases |s|
  {
    if s != "" {
      var c := s[0];
      assert c != DOLLAR by {
        assert OpensWith(o + s, o + [c]) || !IsTag(o + [c]);
      }
      if IsTagChar(c) {
        assert (o + [c]) + s[1..] == o + s;
        DoomedOpening(o + [c], s[1..]);
      }
    }
  }

  lemma NoQuoteHere(s: string)
    requires s != "" && (s[0] == DOLLAR ==> forall u :: IsTag(u) ==> !OpensWith(s, u))
    requires !(BREAK <= s)
    ensures Chunks(Plain, s) == Prepend(s[..1], Chunks(Plain, s[1..]))
  {
    if s[0] == DOLLAR {
      assert [DOLLAR] + s[1..] == s;
      DoomedOpening([DOLLAR], s[1..]);
    }
  }

  /** Inside a quote, `k` bytes into a closing tag that is really there. */
  lemma {:induction false} ClosingConsumed(t: string, k: nat, s: string)
    requires IsTag(t) && k < |t|
    ensures Chunks(Quoted(t, k), t[k..] + s) == Prepend(t[k..], Chunks(Plain, s))
    decreases |t| - k
  {
    var c := t[k];
    assert (t[k..] + s)[0] == c && (t[k..] + s)[..1] == [c] && (t[k..] + s)[1..] == t[k + 1..] + s;
    if k + 1 == |t| {
      assert t[k..] == [c] && t[k + 1..] + s == s;
    } else {
      ClosingConsumed(t, k + 1, s);
      assert [c] + t[k + 1..] == t[k..];
      PrependPrepend([c], t[k + 1..], Chunks(Plain, s));
    }
  }

  lemma PrefixStep(t: string, k: nat, s: string)
    requires k < |t|
    ensures t[k..] <= s <==> s != "" && s[0] == t[k] && t[k + 1..] <= s[1..]
  {
    assert t[k..] == [t[k]] + t[k + 1..];
    if s != "" { assert s == [s[0]] + s[1..]; }
  }

  /** A partly matched closing tag that is not really there changes nothing:
      a tag has no dollar but its first and last byte, so nothing is missed by
      starting over. */
  lemma {:induction false} DoomedClosing(t: string, k: nat, s: string)
    requires IsTag(t) && 0 < k < |t| && !(t[k..] <= s)
    ensures Chunks(Quoted(t, k), s) == Chunks(Quoted(t, 0), s)
    decreases |s|
  {
    PrefixStep(t, k, s);
    if s != "" && s[0] == t[k] && k + 1 < |t| {
      DoomedClosing(t, k + 1, s[1..]);
    }
  }

  lemma QuotedByte(t: string, s: string)
    requires IsTag(t) && s != "" && !(t <= s)
    ensures Chunks(Quoted(t, 0), s) == Prepend(s[..1], Chunks(Quoted(t, 0), s[1..]))
  {
    if s[0] == DOLLAR {
      PrefixStep(t, 0, s);
      DoomedClosing(t, 1, s[1..]);
    }
  }

  // ---------------------------------------------------------------------------
  // The program
  // ---------------------------------------------------------------------------

  /** What is still to be emitted when the bytes from `start` to `i` are pending. */
  ghost function Remaining(sql: string, start: nat, i: nat, m: Mode): (cs: seq<string>)
    requires start <= i <= |sql|
  {
    Prepend(sql[start..i], Chunks(m, sql[i..]))
  }

  /** Reading `n` bytes that the lexer passes without a cut moves the scan
      index and leaves what is to be emitted alone. */
  lemma Jump(sql: string, start: nat, i: nat, n: nat, m: Mode, m': Mode)
    requires start <= i && i + n <= |sql|
    requires Chunks(m, sql[i..]) == Prepend(sql[i..][..n], Chunks(m', sql[i..][n..]))
    ensures Remaining(sql, start, i, m) == Remaining(sql, start, i + n, m')
  {
    assert sql[i..][n..] == sql[i + n..];
    assert sql[start..i] + sql[i..][..n] == sql[start..i + n];
    PrependPrepend(sql[start..i], sql[i..][..n], Chunks(m', sql[i + n..]));
  }

  lemma CutStep(sql: string, start: nat, i: nat)
    requires start <= i < |sql| && CutsHere(Plain, sql[i..])
    ensures Remaining(sql, start, i, Plain)[0] == sql[start..i + 1]
    ensures Remaining(sql, start, i, Plain)[1..] == Remaining(sql, i + 1, i + 1, Plain)
  {
    var cs := Chunks(Plain, sql[i + 1..]);
    assert sql[i..][0] == BREAK[0] && sql[i..][1..] == sql[i + 1..];
    assert Chunks(Plain, sql[i..]) == [sql[i..][..1]] + cs;
    assert sql[start..i] + sql[i..][..1] == sql[start..i + 1];
    assert sql[i + 1..i + 1] + cs[0] == cs[0];
  }

  lemma PrependNothing(cs: seq<string>)
    requires |cs| > 0
    ensures Prepend("", cs) == cs
  {
    assert "" + cs[0] == cs[0];
  }

  lemma PrependToNothing(p: string)
    ensures Prepend(p, [""]) == [p]
  {
    assert p + "" == p;
  }

  lemma JumpInQuote(sql: string, start: nat, i: nat, tag: string)
    requires start <= i < |sql| && IsTag(tag)
    ensures if tag <= sql[i..]
            then i + |tag| <= |sql| &&
                 Remaining(sql, start, i, Quoted(tag, 0)) == Remaining(sql, start, i + |tag|, Plain)
            else Remaining(sql, start, i, Quoted(tag, 0)) == Remaining(sql, start, i + 1, Quoted(tag, 0))
  {
    if tag <= sql[i..] {
      var rest := sql[i..][|tag|..];
      assert tag + rest == sql[i..] && tag[0..] == tag;
      ClosingConsumed(tag, 0, rest);
      Jump(sql, start, i, |tag|, Quoted(tag, 0), Plain);
    } else {
      QuotedByte(tag, sql[i..]);
      Jump(sql, start, i, 1, Quoted(tag, 0), Quoted(tag, 0));
    }
  }

  lemma JumpOpen(sql: string, start: nat, i: nat, tag: string)
    requires start <= i < |sql| && OpensWith(sql[i..], tag)
    ensures i + |tag| <= |sql|
    ensures Remaining(sql, start, i, Plain) == Remaining(sql, start, i + |tag|, Quoted(tag, 0))
  {
    var rest := sql[i..][|tag|..];
    assert tag + rest == sql[i..];
    OpenQuote(tag, rest);
    Jump(sql, start, i, |tag|, Plain, Quoted(tag, 0));
  }

  lemma JumpPlain(sql: string, start: nat, i: nat)
    requires start <= i < |sql| && !(BREAK <= sql[i..])
    requires sql[i] == DOLLAR ==> forall u :: IsTag(u) ==> !OpensWith(sql[i..], u)
    ensures Remaining(sql, start, i, Plain) == Remaining(sql, start, i + 1, Plain)
  {
    NoQuoteHere(sql[i..]);
    Jump(sql, start, i, 1, Plain, Plain);
  }

  ghost function ModeOf(tag: string): Mode {
    if tag == "" then Plain else Quoted(tag, 0)
  }

  /** Where the loop stands: chunks emitted, bytes pending, the quote it is in. */
  ghost predicate Scanned(sql: string, out: seq<string>, start: nat, i: nat, tag: string) {
    && start <= i <= |sql| && (tag == "" || IsTag(tag))
    && Chunks(Plain, sql) == out + Remaining(sql, start, i, ModeOf(tag))
  }

  lemma ScanStart(sql: string)
    ensures Scanned(sql, [], 0, 0, "")
  {
    assert sql[0..] == sql;
    PrependNothing(Chunks(Plain, sql));
  }

  lemma ScanInQuote(sql: string, out: seq<string>, start: nat, i: nat, tag: string)
    requires Scanned(sql, out, start, i, tag) && i < |sql| && tag != ""
    ensures if sql[i] == DOLLAR && tag <= sql[i..] then Scanned(sql, out, start, i + |tag|, "")
            else Scanned(sql, out, start, i + 1, tag)
  {
    assert tag[0] == DOLLAR;
    JumpInQuote(sql, start, i, tag);
  }

  lemma ScanOpen(sql: string, out: seq<string>, start: nat, i: nat, tag: string)
    requires Scanned(sql, out, start, i, "") && i < |sql| && OpensWith(sql[i..], tag)
    ensures Scanned(sql, out, start, i + |tag|, tag)
  {
    JumpOpen(sql, start, i, tag);
  }

  lemma ScanCut(sql: string, out: seq<string>, start: nat, i: nat)
    requires Scanned(sql, out, start, i, "") && i < |sql| && BREAK <= sql[i..]
    ensures Scanned(sql, out + [sql[start..i + 1]], i + 1, i + 1, "")
  {
    CutStep(sql, start, i);
    var todo := Remaining(sql, start, i, Plain);
    assert out + todo == (out + [todo[0]]) + todo[1..];
  }

  lemma ScanPlain(sql: string, out: seq<string>, start: nat, i: nat)
    requires Scanned(sql, out, start, i, "") && i < |sql| && !(BREAK <= sql[i..])
    requires sql[i] == DOLLAR ==> forall u :: IsTag(u) ==> !OpensWith(sql[i..], u)
    ensures Scanned(sql, out, start, i + 1, "")
  {
    JumpPlain(sql, start, i);
  }

  lemma ScanEnd(sql: string, out: seq<string>, start: nat, tag: string)
    requires Scanned(sql, out, start, |sql|, tag)
    ensures Chunks(Plain, sql) == out + [sql[start..]]
  {
    assert sql[start..|sql|] == sql[start..] && sql[|sql|..] == "";
    PrependToNothing(sql[start..]);
  }

  /** One pass through the body of the loop: where it goes on, in which quote, and
      whether a chunk ends there. */
  method ScanFrom(sql: string, start: nat, i: nat, tag: string, ghost out: seq<string>)
    returns (next: nat, tag': string, cut: bool)
    requires Scanned(sql, out, start, i, tag) && i < |sql|
    ensures i < next <= |sql|
    ensures if cut then next == i + 1 && Scanned(sql, out + [sql[start..next]], next, next, tag')
            else Scanned(sql, out, start, next, tag')
  {
    if tag != "" {
      ScanInQuote(sql, out, start, i, tag);
      if sql[i] == DOLLAR && tag <= sql[i..] {
        return i + |tag|, "", false;
      }
      return i + 1, tag, false;
    }
    if sql[i] == DOLLAR {
      var t := DollarTagAt(sql[i..]);
      if t != "" {
        ScanOpen(sql, out, start, i, t);
        return i + |t|, t, false;
      }
    }
    if sql[i] == SEMI && BREAK <= sql[i..] {
      ScanCut(sql, out, start, i);
      return i + 1, "", true;
    }
    assert BREAK[0] == SEMI;
    ScanPlain(sql, out, start, i);
    return i + 1, "", false;
  }

  /** splitStatements: the index-jumping loop computes the chunks of the lexer. */
  method Split(sql: string) returns (out: seq<string>)
    ensures out == Chunks(Plain, sql)
  {
    out := [];
    var start, i := 0, 0;
    var tag := "";
    ScanStart(sql);
    while i < |sql|
      invariant 0 <= start <= i <= |sql| && Scanned(sql, out, start, i, tag)
    {
      var next, tag', cut := ScanFrom(sql, start, i, tag, out);
      if cut {
        out := out + [sql[start..next]];
        start := next;
      }
      i, tag := next, tag';
    }
    ScanEnd(sql, out, start, tag);
    return out + [sql[start..]];
  }

  // ---------------------------------------------------------------------------
  // Where the cuts are
  // ---------------------------------------------------------------------------

  lemma {:induction false} NothingLost(m: Mode, s: string)
    ensures Join(Chunks(m, s)) == s
    decreases |s|
  {
    if s != "" {
      NothingLost(Step(m, s[0]), s[1..]);
      var rest := Chunks(Step(m, s[0]), s[1..]);
      assert s[..1] + s[1..] == s;
      if CutsHere(m, s) {
        assert ([s[..1]] + rest)[1..] == rest;
      } else {
        assert (s[..1] + rest[0]) + Join(rest[1..]) == s[..1] + Join(rest);
      }
    } else {
      assert Join([""]) == "" + Join([]);
    }
  }

  /** The offset in the input at which chunk `k` starts. */
  ghost function Offset(cs: seq<string>, k: nat): nat
    requires k <= |cs|
  {
    if k == 0 then 0 else |cs[0]| + Offset(cs[1..], k - 1)
  }

  ghost predicate IsBoundary(cs: seq<string>, p: nat) {
    exists k :: 0 < k < |cs| && Offset(cs, k) == p
  }

  lemma BoundaryAfterCut(c: string, cs: seq<string>, p: nat)
    requires |cs| > 0 && |c| == 1
    ensures IsBoundary([c] + cs, p + 1) <==> p == 0 || IsBoundary(cs, p)
  {
    var all := [c] + cs;
    assert all[1..] == cs && Offset(all, 1) == 1;
    forall k | 0 < k < |all| ensures Offset(all, k) == 1 + Offset(cs, k - 1) {}
    if k :| 0 < k < |cs| && Offset(cs, k) == p { assert Offset(all, k + 1) == p + 1; }
    if k :| 0 < k < |all| && Offset(all, k) == p + 1 {
      assert Offset(cs, k - 1) == p;
      assert k == 1 ==> p == 0;
    }
  }

  lemma BoundaryAfterByte(c: string, cs: seq<string>, p: nat)
    requires |cs| > 0 && |c| == 1
    ensures IsBoundary(Prepend(c, cs), p + 1) <==> IsBoundary(cs, p)
  {
    var all := Prepend(c, cs);
    assert all[1..] == cs[1..];
    forall k | 0 < k < |all| ensures Offset(all, k) == 1 + Offset(cs, k) {}
    if k :| 0 < k < |cs| && Offset(cs, k) == p { assert Offset(all, k) == p + 1; }
    if k :| 0 < k < |all| && Offset(all, k) == p + 1 { assert Offset(cs, k) == p; }
  }

  /** Inside a chunk list every boundary is past the first byte. */
  lemma NoBoundaryAtZero(m: Mode, s: string)
    ensures !IsBoundary(Chunks(m, s), 0)
  {
    var cs := Chunks(m, s);
    forall k | 0 < k < |cs| ensures Offset(cs, k) > 0 {
      assert |cs[0]| > 0;
    }
  }

  /** The input is cut after byte `i` exactly when `;`, newline, newline starts
      there outside every dollar quote. */
  lemma {:induction false} CutsExactlyThere(m: Mode, s: string, i: nat)
    requires i < |s|
    ensures IsBoundary(Chunks(m, s), i + 1) <==> CutsHere(Lex(m, s[..i]), s[i..])
    decreases |s|
  {
    var n := Step(m, s[0]);
    var rest := Chunks(n, s[1..]);
    if CutsHere(m, s) {
      BoundaryAfterCut(s[..1], rest, i);
    } else {
      BoundaryAfterByte(s[..1], rest, i);
    }
    if i == 0 {
      assert s[0..] == s;
      NoBoundaryAtZero(n, s[1..]);
    } else {
      CutsExactlyThere(n, s[1..], i - 1);
      assert s[..i][1..] == s[1..][..i - 1] && s[1..][i - 1..] == s[i..];
    }
  }

  lemma {:induction false} NoDollarStaysPlain(s: string)
    requires forall i :: 0 <= i < |s| ==> s[i] != DOLLAR
    ensures Lex(Plain, s) == Plain
    decreases |s|
  {
    if s != "" {
      NoDollarStaysPlain(s[1..]);
    }
  }

  /** Dollar quotes are the only ones seen: without a dollar sign every `;`,
      newline, newline is a cut, in a string literal or a comment as well. */
  lemma OnlyDollarQuotesProtect(s: string, i: nat)
    requires i < |s| && forall k :: 0 <= k < |s| ==> s[k] != DOLLAR
    ensures IsBoundary(Chunks(Plain, s), i + 1) <==> BREAK <= s[i..]
  {
    NoDollarStaysPlain(s[..i]);
    CutsExactlyThere(Plain, s, i);
  }

  // ---------------------------------------------------------------------------
  // Splitting is compositional and undoes joining
  // ---------------------------------------------------------------------------

  const BLANK_LINE: string := "\n\n"

  /** Chunk lists that splitting leaves alone: every chunk is whole on its own,
      and every chunk but the last ends its statement outside any quote and is
      followed by a blank line. */
  ghost predicate WellFormed(m: Mode, cs: seq<string>)
    decreases |cs|
  {
    && |cs| > 0
    && Chunks(m, cs[0]) == [cs[0]]
    && (|cs| > 1 ==>
          && cs[0] != "" && cs[0][|cs[0]| - 1] == SEMI
          && Lex(m, cs[0]) == Plain
          && BLANK_LINE <= cs[1]
          && WellFormed(Plain, cs[1..]))
  }

  lemma BlankLineKept(s: string)
    requires BLANK_LINE <= s
    ensures BLANK_LINE <= Chunks(Plain, s)[0]
  {
    assert s[0] == s[1] == '\n' && s[1..][0] == '\n' && BREAK[0] == SEMI;
    var rest := Chunks(Plain, s[1..][1..]);
    assert Chunks(Plain, s[1..]) == Prepend(s[1..][..1], rest);
    assert Chunks(Plain, s)[0] == s[..1] + (s[1..][..1] + rest[0]);
  }

  lemma {:induction false} ChunksAreWellFormed(m: Mode, s: string)
    requires Valid(m)
    ensures WellFormed(m, Chunks(m, s))
    decreases |s|
  {
    if s != "" {
      var c, n := s[0], Step(m, s[0]);
      var rest := Chunks(n, s[1..]);
      assert s[..1] == [c];
      ChunksAreWellFormed(n, s[1..]);
      if CutsHere(m, s) {
        assert c == BREAK[0] && n == Plain;
        assert s[1..] == BLANK_LINE + s[3..];
        BlankLineKept(s[1..]);
        CutWellFormed(m, rest);
      } else {
        NothingLost(n, s[1..]);
        assert [c] + Join(rest) == s;
        GrowFirstChunk(m, c, rest);
      }
    }
  }

  /** A cut in front of a well-formed list. */
  lemma CutWellFormed(m: Mode, rest: seq<string>)
    requires Outside(m) && WellFormed(Plain, rest) && BLANK_LINE <= rest[0]
    ensures WellFormed(m, [[SEMI]] + rest)
  {
    var cs := [[SEMI]] + rest;
    assert cs[0] == [SEMI] && cs[1..] == rest && cs[1] == rest[0];
    FirstByteChunk(m, SEMI);
  }

  lemma FirstByteChunk(m: Mode, c: char)
    ensures Chunks(m, [c]) == [[c]] && Lex(m, [c]) == Step(m, c)
  {
    assert [c][1..] == "" && [c][..1] + "" == [c];
  }

  /** A byte put in front of a well-formed list, when it does not cut there. */
  lemma GrowFirstChunk(m: Mode, c: char, rest: seq<string>)
    requires WellFormed(Step(m, c), rest)
    requires !CutsHere(m, [c] + Join(rest))
    ensures WellFormed(m, Prepend([c], rest))
  {
    var f := [c] + rest[0];
    assert f[1..] == rest[0] && f[..1] == [c];
    assert [c] + Join(rest) == f + Join(rest[1..]);
    assert Chunks(m, f) == Prepend([c], [rest[0]]) == [f];
    assert Prepend([c], rest)[1..] == rest[1..];
  }

  /** No lookahead crosses the semicolon that ends a chunk. */
  lemma {:induction false} SplitAppend(m: Mode, a: string, b: string)
    requires Valid(m) && a != "" && a[|a| - 1] == SEMI
    requires Chunks(m, a) == [a] && Lex(m, a) == Plain && BLANK_LINE <= b
    ensures Chunks(m, a + b) == [a] + Chunks(Plain, b)
    decreases |a|
  {
    var n := Step(m, a[0]);
    assert (a + b)[1..] == a[1..] + b && (a + b)[..1] == a[..1];
    if |a| == 1 {
      assert a[1..] + b == b && Lex(n, a[1..]) == n;
      assert a + b == a + BLANK_LINE + b[2..] && a + BLANK_LINE == BREAK;
      assert a[..1] == a;
    } else {
      assert BREAK <= a + b ==> a[1] == BREAK[1] && |a| > 2 && a[2] == BREAK[2] && BREAK <= a;
      var rest := Chunks(n, a[1..]);
      assert Prepend(a[..1], rest)[0] == a;
      assert rest[0] == (a[..1] + rest[0])[1..];
      assert rest == [a[1..]];
      SplitAppend(n, a[1..], b);
      assert a[..1] + a[1..] == a;
    }
  }

  lemma {:induction false} SplitJoin(m: Mode, cs: seq<string>)
    requires Valid(m) && WellFormed(m, cs)
    ensures Chunks(m, Join(cs)) == cs
    decreases |cs|
  {
    if |cs| == 1 {
      assert cs[0] + Join(cs[1..]) == cs[0];
      assert cs == [cs[0]];
    } else {
      SplitJoin(Plain, cs[1..]);
      assert cs[1..][0] + Join(cs[1..][1..]) == Join(cs[1..]);
      assert BLANK_LINE <= Join(cs[1..]);
      SplitAppend(m, cs[0], Join(cs[1..]));
      assert [cs[0]] + cs[1..] == cs;
    }
  }

  /** Splitting undoes joining exactly on the well-formed chunk lists, and those
      are exactly the lists splitting can produce. */
  lemma SplitUndoesJoin(cs: seq<string>)
    ensures Chunks(Plain, Join(cs)) == cs <==> WellFormed(Plain, cs)
    ensures WellFormed(Plain, cs) <==> exists s :: Chunks(Plain, s) == cs
  {
    if s :| Chunks(Plain, s) == cs {
      ChunksAreWellFormed(Plain, s);
    }
    if WellFormed(Plain, cs) {
      SplitJoin(Plain, cs);
    }
  }

  /** Every chunk stands on its own: it splits to itself, and each but the last
      takes the lexer from outside any quote to outside any quote. */
  lemma {:induction false} EveryChunkStandsAlone(cs: seq<string>, k: nat)
    requires WellFormed(Plain, cs) && k < |cs|
    ensures Chunks(Plain, cs[k]) == [cs[k]]
    ensures k < |cs| - 1 ==> Lex(Plain, cs[k]) == Plain && cs[k] != "" && cs[k][|cs[k]| - 1] == SEMI
    ensures k > 0 ==> BLANK_LINE <= cs[k]
    decreases k
  {
    if k > 0 {
      EveryChunkStandsAlone(cs[1..], k - 1);
    }
  }

  // ---------------------------------------------------------------------------
  // execSQL: what reaches the database
  // ---------------------------------------------------------------------------

  /** Every CR LF pair becomes LF. */
  function UnixLines(s: string): string {
    if s == "" then ""
    else if |s| >= 2 && s[0] == '\r' && s[1] == '\n' then "\n" + UnixLines(s[2..])
    else s[..1] + UnixLines(s[1..])
  }

  /** The statements to send: each chunk trimmed, blank ones skipped. */
  ghost function Statements(cs: seq<string>): seq<string> {
    if cs == [] then []
    else (if Trim(cs[0]) == "" then [] else [Trim(cs[0])]) + Statements(cs[1..])
  }

  /** The statements of a migration file. */
  ghost function Script(file: string): seq<string> {
    Statements(Chunks(Plain, Trim(UnixLines(file))))
  }

  /** Statements go out in order; the first one the database refuses is the
      last one sent. */
  ghost predicate Outcome(all: seq<string>, accepts: string -> bool, sent: seq<string>, ok: bool) {
    && sent <= all
    && (forall i :: 0 <= i < |sent| - 1 ==> accepts(sent[i]))
    && (if ok then sent == all && (sent != [] ==> accepts(sent[|sent| - 1]))
        else sent != [] && !accepts(sent[|sent| - 1]))
  }

  lemma NothingToSend()
    ensures Statements(Chunks(Plain, "")) == []
  {
    assert Trim("") == "";
    assert Statements([""]) == [] + Statements([]);
  }

  lemma SendStep(cs: seq<string>, i: nat)
    requires i < |cs|
    ensures Statements(cs[i..]) == (if Trim(cs[i]) == "" then [] else [Trim(cs[i])]) + Statements(cs[i + 1..])
  {
    assert cs[i..][1..] == cs[i + 1..];
  }

  /** So far all went out and was accepted; `rest` is still to go. */
  ghost predicate Going(all: seq<string>, accepts: string -> bool, sent: seq<string>, rest: seq<string>) {
    all == sent + rest && forall k :: 0 <= k < |sent| ==> accepts(sent[k])
  }

  lemma GoesOut(all: seq<string>, accepts: string -> bool, sent: seq<string>, chunk: string, next: seq<string>)
    requires Going(all, accepts, sent, [chunk] + next)
    ensures if accepts(chunk) then Going(all, accepts, sent + [chunk], next)
            else Outcome(all, accepts, sent + [chunk], false)
  {
    assert sent + ([chunk] + next) == (sent + [chunk]) + next;
  }

  lemma AllOut(all: seq<string>, accepts: string -> bool, sent: seq<string>)
    requires Going(all, accepts, sent, [])
    ensures Outcome(all, accepts, sent, true)
  {}

  method Send(chunks: seq<string>, accepts: string -> bool) returns (sent: seq<string>, ok: bool)
    ensures Outcome(Statements(chunks), accepts, sent, ok)
  {
    sent, ok := [], true;
    ghost var all, rest := Statements(chunks), Statements(chunks);
    var i := 0;
    assert chunks[0..] == chunks;
    while i < |chunks|
      invariant 0 <= i <= |chunks|
      invariant Going(all, accepts, sent, rest) && rest == Statements(chunks[i..])
    {
      var chunk := Trim(chunks[i]);
      SendStep(chunks, i);
      rest := Statements(chunks[i + 1..]);
      i := i + 1;
      if chunk != "" {
        GoesOut(all, accepts, sent, chunk, rest);
        sent := sent + [chunk];
        if !accepts(chunk) {
          return sent, false;
        }
      } else {
        assert [] + rest == rest;
      }
    }
    assert chunks[i..] == [];
    AllOut(all, accepts, sent);
  }

  /** A migration file sent chunk by chunk; `accepts` says which statements the
      database takes. */
  method ExecSql(file: string, accepts: string -> bool) returns (sent: seq<string>, ok: bool)
    ensures Outcome(Script(file), accepts, sent, ok)
  {
    var sql := Trim(UnixLines(file));
    if sql == "" {
      NothingToSend();
      return [], true;
    }
    var chunks := Split(sql);
    sent, ok := Send(chunks, accepts);
  }

  ghost function InkOf(c: char): string {
    if IsSpace(c) then "" else [c]
  }

  /** A text without its white space. */
  ghost function Ink(s: string): string {
    if s == "" then "" else InkOf(s[0]) + Ink(s[1..])
  }

  lemma {:induction false} InkAppend(a: string, b: string)
    ensures Ink(a + b) == Ink(a) + Ink(b)
    decreases |a|
  {
    if a == "" {
      assert a + b == b;
    } else {
      var c := a + b;
      InkAppend(a[1..], b);
      assert c[0] == a[0] && c[1..] == a[1..] + b;
      assert InkOf(a[0]) + (Ink(a[1..]) + Ink(b)) == (InkOf(a[0]) + Ink(a[1..])) + Ink(b);
    }
  }

  lemma {:induction false} InkTrimRight(s: string)
    ensures Ink(TrimRight(s)) == Ink(s)
    decreases |s|
  {
    if s != "" && IsSpace(s[|s| - 1]) {
      InkTrimRight(s[..|s| - 1]);
      InkAppend(s[..|s| - 1], s[|s| - 1..]);
      assert s == s[..|s| - 1] + s[|s| - 1..];
      assert s[|s| - 1..][1..] == "";
    }
  }

  lemma {:induction false} InkTrimLeft(s: string)
    ensures Ink(TrimLeft(s)) == Ink(s)
    decreases |s|
  {
    if s != "" && IsSpace(s[0]) {
      InkTrimLeft(s[1..]);
      assert InkOf(s[0]) + Ink(s[1..]) == Ink(s[1..]);
    }
  }

  lemma InkTrim(s: string)
    ensures Ink(Trim(s)) == Ink(s)
  {
    InkTrimLeft(s);
    InkTrimRight(TrimLeft(s));
  }

  lemma {:induction false} InkUnixLines(s: string)
    ensures Ink(UnixLines(s)) == Ink(s)
    decreases |s|
  {
    if s != "" {
      if |s| >= 2 && s[0] == '\r' && s[1] == '\n' {
        InkUnixLines(s[2..]);
        assert s[1..][1..] == s[2..];
        assert ("\n" + UnixLines(s[2..]))[1..] == UnixLines(s[2..]);
      } else {
        InkUnixLines(s[1..]);
        InkAppend(s[..1], UnixLines(s[1..]));
        assert s[..1][1..] == "";
      }
    }
  }

  lemma {:induction false} InkStatements(cs: seq<string>)
    ensures Ink(Join(Statements(cs))) == Ink(Join(cs))
    decreases |cs|
  {
    if cs != [] {
      var t, rest := Trim(cs[0]), Statements(cs[1..]);
      InkStatements(cs[1..]);
      InkTrim(cs[0]);
      InkAppend(cs[0], Join(cs[1..]));
      if t != "" {
        assert ([t] + rest)[1..] == rest;
        InkAppend(t, Join(rest));
      } else {
        assert [] + rest == rest;
      }
    }
  }

  /** A migration the database accepts has been sent entire: nothing but white
      space is missing from the statements, and they are in file order. */
  lemma WholeFileSent(file: string)
    ensures Ink(Join(Script(file))) == Ink(file)
  {
    var sql := Trim(UnixLines(file));
    InkStatements(Chunks(Plain, sql));
    NothingLost(Plain, sql);
    InkTrim(UnixLines(file));
    InkUnixLines(file);
  }
}
