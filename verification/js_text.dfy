/** JavaScript strings as the dashboard manipulates them: sequences of UTF-16
    code units, so that `length`, `substring`, `startsWith` and `split` count
    and cut exactly as the browser does. */
module JsText {

  /** One UTF-16 code unit. */
  type CodeUnit = c: int | 0 <= c < 0x1_0000

  /** A JavaScript string value. */
  type JsString = seq<CodeUnit>

  const LineFeed: CodeUnit := 0x0A

  /** The number of occurrences of `c` in `s`. */
  function Count(s: JsString, c: CodeUnit): nat
  {
    if |s| == 0 then 0
    else (if s[0] == c then 1 else 0) + Count(s[1..], c)
  }

  /** The pieces of `s` between occurrences of `sep`, as `s.split(sep)` returns
      them for a one-unit separator: the empty string yields one empty piece. */
  function Split(s: JsString, sep: CodeUnit): (pieces: seq<JsString>)
    ensures |pieces| == Count(s, sep) + 1
    ensures forall i :: 0 <= i < |pieces| ==> sep !in pieces[i]
  {
    if |s| == 0 then [[]]
    else
      var rest := Split(s[1..], sep);
      if s[0] == sep then [[]] + rest
      else [[s[0]] + rest[0]] + rest[1..]
  }

  /** The pieces glued back together with `sep` between neighbours. */
  function Join(pieces: seq<JsString>, sep: CodeUnit): JsString
  {
    if |pieces| == 0 then []
    else if |pieces| == 1 then pieces[0]
    else pieces[0] + [sep] + Join(pieces[1..], sep)
  }

  /** Splitting loses nothing: joining the pieces gives back the string. */
  lemma {:induction false} JoinSplit(s: JsString, sep: CodeUnit)
    ensures Join(Split(s, sep), sep) == s
  {
    if |s| > 0 {
      var rest := Split(s[1..], sep);
      JoinSplit(s[1..], sep);
      if s[0] == sep {
        assert Split(s, sep) == [[]] + rest;
        assert s == [sep] + s[1..];
      } else if |rest| == 1 {
        assert Split(s, sep) == [[s[0]] + rest[0]];
        assert s == [s[0]] + s[1..];
      } else {
        var pieces := Split(s, sep);
        assert pieces[1..] == rest[1..];
        calc {
          Join(pieces, sep);
          ([s[0]] + rest[0]) + [sep] + Join(rest[1..], sep);
          [s[0]] + (rest[0] + [sep] + Join(rest[1..], sep));
          [s[0]] + Join(rest, sep);
          s;
        }
      }
    }
  }

  /** Splitting a string that starts with a separator-free `p` puts `p` in
      front of the first piece. */
  lemma {:induction false} SplitPrefix(p: JsString, t: JsString, sep: CodeUnit)
    requires sep !in p
    ensures Split(p + t, sep) == [p + Split(t, sep)[0]] + Split(t, sep)[1..]
  {
    if |p| > 0 {
      assert p[0] != sep && sep !in p[1..];
      SplitPrefix(p[1..], t, sep);
      var pieces, rest := Split(t, sep), Split(p[1..] + t, sep);
      assert (p + t)[0] == p[0] && (p + t)[1..] == p[1..] + t;
      assert Split(p + t, sep) == [[p[0]] + rest[0]] + rest[1..];
      assert rest[0] == p[1..] + pieces[0] && rest[1..] == pieces[1..];
      assert [p[0]] + (p[1..] + pieces[0]) == p + pieces[0];
    } else {
      var pieces := Split(t, sep);
      assert p + t == t && p + pieces[0] == pieces[0];
      assert pieces == [pieces[0]] + pieces[1..];
    }
  }

  /** Joining separator-free pieces and splitting again gives the pieces back. */
  lemma {:induction false} SplitJoin(pieces: seq<JsString>, sep: CodeUnit)
    requires |pieces| >= 1
    requires forall i :: 0 <= i < |pieces| ==> sep !in pieces[i]
    ensures Split(Join(pieces, sep), sep) == pieces
  {
    if |pieces| == 1 {
      SplitPrefix(pieces[0], [], sep);
      assert pieces[0] + [] == pieces[0];
    } else {
      var tail := Join(pieces[1..], sep);
      SplitJoin(pieces[1..], sep);
      assert Join(pieces, sep) == pieces[0] + ([sep] + tail);
      SplitPrefix(pieces[0], [sep] + tail, sep);
      assert ([sep] + tail)[1..] == tail;
      assert Split([sep] + tail, sep) == [[]] + pieces[1..];
      assert pieces[0] + [] == pieces[0];
    }
  }

  /** The code units `String.prototype.trim` removes: the ECMAScript WhiteSpace
      set (tab, vertical tab, form feed, the byte-order mark and every Unicode
      space separator) and the LineTerminator set. */
  predicate IsJsWhitespace(c: CodeUnit)
  {
    || c == 0x09 || c == 0x0B || c == 0x0C || c == 0xFEFF
    || c == 0x20 || c == 0xA0 || c == 0x1680 || 0x2000 <= c <= 0x200A
    || c == 0x202F || c == 0x205F || c == 0x3000
    || c == 0x0A || c == 0x0D || c == 0x2028 || c == 0x2029
  }

  /** Every code unit of `s` is whitespace. */
  predicate AllWhitespace(s: JsString)
  {
    forall i :: 0 <= i < |s| ==> IsJsWhitespace(s[i])
  }

  /** The length of the longest all-whitespace prefix of `s`. */
  function LeadingWhitespace(s: JsString): (n: nat)
    ensures n <= |s|
    ensures AllWhitespace(s[..n])
    ensures n < |s| ==> !IsJsWhitespace(s[n])
  {
    if |s| == 0 || !IsJsWhitespace(s[0]) then 0
    else
      var m := LeadingWhitespace(s[1..]);
      assert s[..m + 1] == [s[0]] + s[1..][..m];
      1 + m
  }

  /** The length of the longest all-whitespace suffix of `s`. */
  function TrailingWhitespace(s: JsString): (n: nat)
    ensures n <= |s|
    ensures AllWhitespace(s[|s| - n..])
    ensures n < |s| ==> !IsJsWhitespace(s[|s| - n - 1])
  {
    if |s| == 0 || !IsJsWhitespace(s[|s| - 1]) then 0
    else
      var init := s[..|s| - 1];
      var m := TrailingWhitespace(init);
      assert s[|s| - (m + 1)..] == init[|init| - m..] + [s[|s| - 1]];
      1 + m
  }

  /** `s` is `t` with whitespace around it, and `t` neither starts nor ends
      with whitespace. */
  predicate IsTrimOf(t: JsString, s: JsString)
  {
    && (|t| > 0 ==> !IsJsWhitespace(t[0]) && !IsJsWhitespace(t[|t| - 1]))
    && exists a :: 0 <= a <= |s| - |t| && s[a..a + |t|] == t
                   && AllWhitespace(s[..a]) && AllWhitespace(s[a + |t|..])
  }

  /** `s.trimStart()`: `s` without its leading whitespace. */
  function TrimStart(s: JsString): (u: JsString)
    ensures |u| <= |s| && u == s[|s| - |u|..]
    ensures AllWhitespace(s[..|s| - |u|])
    ensures |u| > 0 ==> !IsJsWhitespace(u[0])
  {
    s[LeadingWhitespace(s)..]
  }

  /** `s.trimEnd()`: `s` without its trailing whitespace. */
  function TrimEnd(s: JsString): (u: JsString)
    ensures |u| <= |s| && u == s[..|u|]
    ensures AllWhitespace(s[|u|..])
    ensures |u| > 0 ==> !IsJsWhitespace(u[|u| - 1])
  {
    s[..|s| - TrailingWhitespace(s)]
  }

  /** `s.trim()`: `s` without its leading and trailing whitespace. */
  function Trim(s: JsString): (t: JsString)
    ensures IsTrimOf(t, s)
  {
    var u := TrimStart(s);
    var t := TrimEnd(u);
    TrimOfTrimmed(s, u, t);
    t
  }

  /** Trimming the end of what remains after trimming the start is trimming. */
  lemma TrimOfTrimmed(s: JsString, u: JsString, t: JsString)
    requires |u| <= |s| && u == s[|s| - |u|..] && AllWhitespace(s[..|s| - |u|])
    requires |u| > 0 ==> !IsJsWhitespace(u[0])
    requires |t| <= |u| && t == u[..|t|] && AllWhitespace(u[|t|..])
    requires |t| > 0 ==> !IsJsWhitespace(t[|t| - 1])
    ensures IsTrimOf(t, s)
  {
  }

  /** Trimming is idempotent. */
  lemma TrimIdempotent(s: JsString)
    ensures Trim(Trim(s)) == Trim(s)
  {
  }

  /** A trimmed string is a piece of the untrimmed one, so it holds no code
      unit the untrimmed one lacks. */
  lemma TrimSubset(s: JsString, c: CodeUnit)
    requires c !in s
    ensures c !in Trim(s)
  {
  }

  /** `s.substring(0, n)` for `n >= 0`: the first `n` code units, or all of `s`
      when it is shorter. */
  function Prefix(s: JsString, n: nat): (p: JsString)
    ensures |p| == if n <= |s| then n else |s|
    ensures p <= s
  {
    if n <= |s| then s[..n] else s
  }
}
