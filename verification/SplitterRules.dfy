/**
  How a migration is split (internal/migrate/migrate.go), as four rules on the text
  alone. They leave no case out, so they say what the chunks of every text are.
 */
module SplitterRules {
  import opened Text
  import opened Splitter
  import opened Wrappers

  /** `$`, letters, digits and underscores, `$`. */
  ghost predicate TagText(t: string) {
    && |t| >= 2 && t[0] == '$' && t[|t| - 1] == '$'
    && forall i :: 0 < i < |t| - 1 ==> t[i] == '_' || 'a' <= t[i] <= 'z' || 'A' <= t[i] <= 'Z' || '0' <= t[i] <= '9'
  }

  ghost predicate TagOpens(s: string) {
    exists t: string :: TagText(t) && t <= s
  }

  /** `t` stands somewhere in `s`, at a place before `n`. */
  ghost predicate Within(s: string, t: string, n: nat) {
    exists i :: 0 <= i < n && i <= |s| && t <= s[i..]
  }

  lemma WithinTail(s: string, t: string, n: nat)
    requires s != "" && !Within(s, t, n + 1)
    ensures !(t <= s) && !Within(s[1..], t, n)
  {
    assert s[0..] == s;
    forall i | 0 <= i < n && i <= |s[1..]| ensures !(t <= s[1..][i..]) {
      assert s[1..][i..] == s[i + 1..];
    }
  }

  lemma Regroup(a: string, b: string, c: string)
    ensures a + b + c == a + (b + c)
  {}

  lemma TagTextIsTag(t: string)
    ensures TagText(t) <==> IsTag(t)
  {
    assert forall i :: 0 < i < |t| - 1 && (TagText(t) || IsTag(t)) ==> IsTagChar(t[i]);
  }

  /** Nothing more is one empty chunk; and where no tag opens, a byte is cut off behind
      exactly when it is a semicolon in front of a blank line. */
  lemma ByteRule(s: string)
    requires !TagOpens(s)
    ensures s == "" ==> Chunks(Plain, s) == [""]
    ensures s != "" ==>
      var rest := Chunks(Plain, s[1..]);
      rest != [] && Chunks(Plain, s) == if ";\n\n" <= s then [";"] + rest else [s[..1] + rest[0]] + rest[1..]
  {
    if s != "" {
      forall u | IsTag(u) ensures !OpensWith(s, u) { TagTextIsTag(u); }
      if BREAK <= s {
        assert s[0] == BREAK[0] && s[..1] == ";";
      } else {
        NoQuoteHere(s);
      }
    }
  }

  /** A quote that is closed is never cut, whatever is in it: a tag, up to and with the
      next place where the same tag stands. */
  lemma QuoteRule(t: string, body: string, rest: string)
    requires TagText(t) && !Within(body + t, t, |body|)
    ensures var after := Chunks(Plain, rest);
      after != [] && Chunks(Plain, t + body + t + rest) == [t + body + t + after[0]] + after[1..]
  {
    TagTextIsTag(t);
    var q, after := body + t, Chunks(Plain, rest);
    Regroup(t, body, t);
    Regroup(t, q, rest);
    OpenQuote(t, q + rest);
    BodyConsumed(t, body, rest);
    PrependPrepend(t, q, after);
    assert Chunks(Plain, t + q + rest) == Prepend(t + q, after);
  }

  lemma {:induction false} BodyConsumed(t: string, body: string, rest: string)
    requires IsTag(t) && !Within(body + t, t, |body|)
    ensures Chunks(Quoted(t, 0), body + t + rest) == Prepend(body + t, Chunks(Plain, rest))
    decreases |body|
  {
    var s := body + t + rest;
    if body == "" {
      assert s == t[0..] + rest && body + t == t[0..];
      ClosingConsumed(t, 0, rest);
    } else {
      var next := body[1..];
      assert s[1..] == next + t + rest && (body + t)[1..] == next + t;
      WithinTail(body + t, t, |next|);
      PrefixOfMore(t, body + t, rest);
      QuotedByte(t, s);
      BodyConsumed(t, next, rest);
      PrependPrepend(s[..1], next + t, Chunks(Plain, rest));
      assert s[..1] + (next + t) == body + t;
    }
  }

  lemma PrefixOfMore(t: string, a: string, b: string)
    requires |t| <= |a|
    ensures t <= a + b <==> t <= a
  {
    assert (a + b)[..|t|] == a[..|t|];
  }

  /** One that is never closed hides the rest of the text. */
  lemma OpenQuoteRule(t: string, body: string)
    requires TagText(t) && !Within(body, t, |body| + 1)
    ensures Chunks(Plain, t + body) == [t + body]
  {
    TagTextIsTag(t);
    OpenQuote(t, body);
    NeverClosed(t, body);
  }

  lemma {:induction false} NeverClosed(t: string, body: string)
    requires IsTag(t) && !Within(body, t, |body| + 1)
    ensures Chunks(Quoted(t, 0), body) == [body]
    decreases |body|
  {
    if body != "" {
      WithinTail(body, t, |body|);
      QuotedByte(t, body);
      NeverClosed(t, body[1..]);
      assert body[..1] + body[1..] == body;
    }
  }

  /** One of the rules applies to every text: no tag opens it, or the quote is closed, and
      how, or it never is. */
  lemma SomeRuleApplies(s: string) returns (t: string, body: string, rest: Option<string>)
    requires TagOpens(s)
    ensures TagText(t) && s == t + body + (if rest.Some? then t + rest.value else "")
    ensures !(if rest.Some? then Within(body + t, t, |body|) else Within(body, t, |body| + 1))
  {
    t :| TagText(t) && t <= s;
    body, rest := s[|t|..], None;
    assert s == t + body + "";
    if Within(body, t, |body| + 1) {
      var n := FirstWithin(body, t);
      NotBefore(body, t, n);
      Reassemble(s, t, body, n);
      body, rest := body[..n], Some(body[n..][|t|..]);
    }
  }

  lemma Reassemble(s: string, t: string, body: string, n: nat)
    requires n <= |body| && t <= body[n..] && s == t + body + ""
    ensures s == t + body[..n] + (t + body[n..][|t|..])
  {
    assert body[n..] == t + body[n..][|t|..];
    assert body == body[..n] + body[n..];
  }

  lemma NotBefore(s: string, t: string, n: nat)
    requires n <= |s| && t <= s[n..] && !Within(s, t, n)
    ensures !Within(s[..n] + t, t, n)
  {
    var front, rest := s[..n] + t, s[n..][|t|..];
    assert s[n..] == t + rest && s == front + rest;
    forall i | 0 <= i < n && i <= |front| ensures !(t <= front[i..]) {
      assert s[i..] == front[i..] + rest;
    }
  }

  lemma FirstWithin(s: string, t: string) returns (n: nat)
    requires Within(s, t, |s| + 1)
    ensures n <= |s| && t <= s[n..] && !Within(s, t, n)
  {
    n := 0;
    while !(t <= s[n..])
      invariant n <= |s| && !Within(s, t, n)
      decreases |s| - n
    {
      assert !Within(s, t, n + 1);
      n := n + 1;
    }
  }

  // ---------------------------------------------------------------------------
  // Line ends and blanks
  // ---------------------------------------------------------------------------

  /** The text with a CR before every LF. */
  function WithCr(s: string): string {
    if s == "" then "" else (if s[0] == '\n' then "\r\n" else [s[0]]) + WithCr(s[1..])
  }

  lemma {:induction false} CrIsUndone(s: string)
    ensures UnixLines(WithCr(s)) == s
    decreases |s|
  {
    if s != "" {
      var w, rest := WithCr(s), WithCr(s[1..]);
      CrIsUndone(s[1..]);
      assert s == [s[0]] + s[1..];
      if s[0] == '\n' {
        assert w[2..] == rest;
      } else {
        assert w[1..] == rest && w[..1] == [s[0]];
        assert rest != "" ==> rest[0] != '\n';
      }
    }
  }

  ghost predicate NoCrLf(s: string) {
    forall i :: 0 <= i < |s| - 1 ==> !(s[i] == '\r' && s[i + 1] == '\n')
  }

  lemma {:induction false} UnixLinesKept(s: string)
    requires NoCrLf(s)
    ensures UnixLines(s) == s
    decreases |s|
  {
    if s != "" {
      assert |s| >= 2 ==> !(s[0] == '\r' && s[0 + 1] == '\n');
      forall i | 0 <= i < |s[1..]| - 1 ensures !(s[1..][i] == '\r' && s[1..][i + 1] == '\n') {
        assert !(s[i + 1] == '\r' && s[i + 1 + 1] == '\n');
      }
      UnixLinesKept(s[1..]);
    }
  }

  /** A file has the same statements whichever line ends it was saved with; each of them
      is trimmed, and none is blank. */
  lemma ScriptIsTheSame(file: string)
    requires NoCrLf(file)
    ensures Script(WithCr(file)) == Script(file)
    ensures forall x :: x in Script(file) ==> Trim(x) == x != ""
  {
    CrIsUndone(file);
    UnixLinesKept(file);
    StatementsAreTrimmed(Chunks(Plain, Trim(file)));
  }

  lemma {:induction false} StatementsAreTrimmed(cs: seq<string>)
    ensures forall x :: x in Statements(cs) ==> Trim(x) == x != ""
    decreases |cs|
  {
    if cs != [] {
      StatementsAreTrimmed(cs[1..]);
      TrimIsTrimmed(cs[0]);
    }
  }
}
