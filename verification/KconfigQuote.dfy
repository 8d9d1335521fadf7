/** Quoting of string values in .config files: escape, unescape, and the matcher that finds
    the end of a literal. */
module KconfigQuote {
  import opened Options

  /** `str.replace` of one character. */
  function Replace(s: string, c: char, put: string): string {
    if s == "" then "" else (if s[0] == c then put else [s[0]]) + Replace(s[1..], c, put)
  }

  /** `escape`: backslashes first, then quotes. */
  function Escape(s: string): string {
    Replace(Replace(s, '\\', "\\\\"), '"', "\\\"")
  }

  /** `unescape`: a backslash followed by any character but a newline becomes that character. */
  function Unescape(s: string): string {
    if s == "" then ""
    else if s[0] == '\\' && |s| >= 2 && s[1] != '\n' then [s[1]] + Unescape(s[2..])
    else [s[0]] + Unescape(s[1..])
  }

  /** The contents a string literal may have: ordinary characters and escaped ones. */
  predicate Body(c: string) {
    c == ""
    || (c[0] != '\\' && c[0] != '"' && Body(c[1..]))
    || (c[0] == '\\' && |c| >= 2 && c[1] != '\n' && Body(c[2..]))
  }

  /** From inside a literal to its closing quote. */
  function Scan(s: string): Option<string> {
    if s == "" then None
    else if s[0] == '"' then Some("")
    else if s[0] != '\\' then
      var r := Scan(s[1..]);
      if r.Some? then Some([s[0]] + r.value) else None
    else if |s| >= 2 && s[1] != '\n' then
      var r := Scan(s[2..]);
      if r.Some? then Some(s[..2] + r.value) else None
    else None
  }

  /** `_conf_string_match`: the contents of the literal a line starts with. */
  function MatchString(s: string): Option<string> {
    if s != "" && s[0] == '"' then Scan(s[1..]) else None
  }

  // ------------------------------------------------------------------- matcher

  lemma {:induction false} ScanFinds(c: string, rest: string)
    requires Body(c)
    ensures Scan(c + "\"" + rest) == Some(c)
    decreases |c|
  {
    var s := c + "\"" + rest;
    if c == "" {
      assert s[0] == '"';
    } else if c[0] != '\\' {
      ScanFinds(c[1..], rest);
      assert s[0] == c[0] && s[1..] == c[1..] + "\"" + rest && [c[0]] + c[1..] == c;
    } else {
      ScanFinds(c[2..], rest);
      assert s[0] == c[0] && s[1] == c[1] && s[2..] == c[2..] + "\"" + rest;
      assert s[..2] == c[..2] && c[..2] + c[2..] == c;
    }
  }

  lemma {:induction false} ScanFound(s: string)
    requires Scan(s).Some?
    ensures var c := Scan(s).value;
      Body(c) && |c| < |s| && s[..|c|] == c && s[|c|] == '"'
    decreases |s|
  {
    var c := Scan(s).value;
    if s[0] == '"' {
    } else if s[0] != '\\' {
      ScanFound(s[1..]);
      assert c[1..] == Scan(s[1..]).value;
      assert s[..|c|] == [s[0]] + s[1..][..|c| - 1];
    } else {
      ScanFound(s[2..]);
      assert c[2..] == Scan(s[2..]).value && c[0] == s[0] && c[1] == s[1];
      assert s[..|c|] == s[..2] + s[2..][..|c| - 2];
    }
  }

  /** The matcher returns the contents if and only if the line starts with a literal. */
  lemma MatchIsExact(s: string, c: string)
    ensures MatchString(s) == Some(c) <==> Body(c) && |c| + 2 <= |s| && s[0] == '"' && s[1..|c| + 1] == c && s[|c| + 1] == '"'
  {
    if MatchString(s) == Some(c) {
      ScanFound(s[1..]);
      assert s[1..|c| + 1] == s[1..][..|c|];
    }
    if Body(c) && |c| + 2 <= |s| && s[0] == '"' && s[1..|c| + 1] == c && s[|c| + 1] == '"' {
      var rest := s[|c| + 2..];
      assert s[1..] == s[1..|c| + 1] + "\"" + rest;
      ScanFinds(c, rest);
    }
  }

  // ---------------------------------------------------------------- round trip

  /** The two passes together, character by character. */
  lemma EscapeFirst(s: string)
    requires s != ""
    ensures Escape(s) == (if s[0] == '\\' then "\\\\" else if s[0] == '"' then "\\\"" else [s[0]]) + Escape(s[1..])
  {
    var first := Replace(s[1..], '\\', "\\\\");
    if s[0] == '\\' {
      assert ("\\\\" + first)[1..] == "\\" + first && ("\\" + first)[1..] == first;
      assert Replace("\\" + first, '"', "\\\"") == "\\" + Replace(first, '"', "\\\"");
      assert "\\" + ("\\" + Replace(first, '"', "\\\"")) == "\\\\" + Replace(first, '"', "\\\"");
    } else {
      assert ([s[0]] + first)[1..] == first;
    }
  }

  lemma {:induction false} EscapeIsBody(s: string)
    ensures Body(Escape(s))
  {
    if s != "" {
      EscapeFirst(s);
      EscapeIsBody(s[1..]);
      var e := Escape(s);
      if s[0] == '\\' || s[0] == '"' {
        assert e[2..] == Escape(s[1..]);
      } else {
        assert e[1..] == Escape(s[1..]);
      }
    }
  }

  /** Unescaping undoes escaping, for every string. */
  lemma {:induction false} UnescapeUndoes(s: string)
    ensures Unescape(Escape(s)) == s
  {
    if s != "" {
      EscapeFirst(s);
      UnescapeUndoes(s[1..]);
      var e := Escape(s);
      if s[0] == '\\' || s[0] == '"' {
        assert e[2..] == Escape(s[1..]);
      } else {
        assert e[1..] == Escape(s[1..]);
      }
    }
  }

  /** Reading back a string value that was written: whatever follows it on the line, the
      matcher stops at the closing quote, and unescaping gives the value. */
  lemma StringRoundTrip(s: string, rest: string)
    ensures MatchString("\"" + Escape(s) + "\"" + rest) == Some(Escape(s)) && Unescape(Escape(s)) == s
  {
    EscapeIsBody(s);
    ScanFinds(Escape(s), rest);
    assert ("\"" + Escape(s) + "\"" + rest)[1..] == Escape(s) + "\"" + rest;
    UnescapeUndoes(s);
  }

  // ------------------------------------------------------------------- spellings

  /** A way to write a string in a literal: any character but a newline may be escaped, a
      backslash and a quote have to be. */
  predicate Spelling(c: string, s: string) {
    if s == "" then c == ""
    else
      || (c != "" && c[0] == s[0] != '\\' && s[0] != '"' && Spelling(c[1..], s[1..]))
      || (|c| >= 2 && c[0] == '\\' && c[1] == s[0] != '\n' && Spelling(c[2..], s[1..]))
  }

  /** The contents of a literal unescape to a string if and only if they spell it. */
  lemma {:induction false} UnescapesWhatIsSpelled(c: string, s: string)
    ensures Spelling(c, s) <==> Body(c) && Unescape(c) == s
    decreases |c|
  {
    if c != "" {
      if c[0] != '\\' {
        UnescapesWhatIsSpelled(c[1..], if s == "" then "" else s[1..]);
      } else if |c| >= 2 {
        UnescapesWhatIsSpelled(c[2..], if s == "" then "" else s[1..]);
      }
    }
  }

  /** Escaping gives the shortest spelling, and no other spelling is as short. */
  lemma {:induction false} EscapeIsShortest(c: string, s: string)
    requires Spelling(c, s)
    ensures Spelling(Escape(s), s) && |Escape(s)| <= |c| && (|c| == |Escape(s)| ==> c == Escape(s))
  {
    if s != "" {
      EscapeFirst(s);
      var e := Escape(s);
      EscapeIsShortest(if c[0] == s[0] != '\\' && s[0] != '"' && Spelling(c[1..], s[1..]) then c[1..] else c[2..], s[1..]);
      if s[0] == '\\' || s[0] == '"' {
        assert e[2..] == Escape(s[1..]);
      } else {
        assert e[1..] == Escape(s[1..]);
      }
    }
  }
}
