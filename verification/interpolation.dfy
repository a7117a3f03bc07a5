/**
 `$token` substitution in volume specs (index.js:38-45): every maximal run of
 ASCII letters and digits after a `$` is looked up, lower-cased, in a table;
 a string or number found there replaces the whole `$token`, anything else
 leaves it as it was.
 */
module Interpolation {
  import opened Text
  import opened Decimal

  /** A table value: a string, a number, or a value of any other type (`undefined`, a function, ...). */
  datatype Datum = StringValue(s: string) | NumberValue(n: int) | OtherValue

  predicate IsAlnum(c: char) {
    'a' <= c <= 'z' || 'A' <= c <= 'Z' || '0' <= c <= '9'
  }

  function LowerChar(c: char): char {
    if 'A' <= c <= 'Z' then (c as int + 32) as char else c
  }

  function ToLower(s: string): string {
    seq(|s|, i requires 0 <= i < |s| => LowerChar(s[i]))
  }

  /** Length of the run of letters and digits that `s` starts with. */
  function TokenLength(s: string): (n: nat)
    ensures n <= |s|
    ensures forall i :: 0 <= i < n ==> IsAlnum(s[i])
    ensures n < |s| ==> !IsAlnum(s[n])
  {
    if |s| == 0 || !IsAlnum(s[0]) then 0 else 1 + TokenLength(s[1..])
  }

  /** The text that replaces `"$" + token`. */
  function Replacement(token: string, data: map<string, Datum>): string
  {
    var key := ToLower(token);
    if key in data && data[key].StringValue? then data[key].s
    else if key in data && data[key].NumberValue? then IntToString(data[key].n)
    else "$" + token
  }

  /** `str.replace(/\$([a-zA-Z0-9]+)/g, ...)`, scanning left to right. */
  function Interpolate(s: string, data: map<string, Datum>): string
    decreases |s|
  {
    if |s| == 0 then ""
    else if s[0] == '$' && TokenLength(s[1..]) > 0 then
      var n := 1 + TokenLength(s[1..]);
      Replacement(s[1..n], data) + Interpolate(s[n..], data)
    else [s[0]] + Interpolate(s[1..], data)
  }

  /** The table the daemon runner passes: one entry, `home`, holding the home directory if known. */
  function HomeTable(home: Option<string>): map<string, Datum>
  {
    map["home" := if home.Some? then StringValue(home.value) else OtherValue]
  }

  lemma {:induction false} TokenLengthOf(token: string, rest: string)
    requires forall i :: 0 <= i < |token| ==> IsAlnum(token[i])
    requires |rest| == 0 || !IsAlnum(rest[0])
    ensures TokenLength(token + rest) == |token|
    decreases |token|
  {
    if |token| > 0 {
      assert (token + rest)[1..] == token[1..] + rest;
      TokenLengthOf(token[1..], rest);
    }
  }

  /** A maximal `$token` is replaced as a whole, and scanning resumes after it. */
  lemma InterpolateToken(token: string, rest: string, data: map<string, Datum>)
    requires |token| > 0
    requires forall i :: 0 <= i < |token| ==> IsAlnum(token[i])
    requires |rest| == 0 || !IsAlnum(rest[0])
    ensures Interpolate("$" + token + rest, data) == Replacement(token, data) + Interpolate(rest, data)
  {
    var s := "$" + token + rest;
    assert s[1..] == token + rest;
    TokenLengthOf(token, rest);
    assert s[1..1 + |token|] == token;
    assert s[1 + |token|..] == rest;
  }

  /** A character that does not start a token is copied, and scanning resumes after it. */
  lemma InterpolateLiteral(c: char, rest: string, data: map<string, Datum>)
    requires c != '$' || |rest| == 0 || !IsAlnum(rest[0])
    ensures Interpolate([c] + rest, data) == [c] + Interpolate(rest, data)
  {
    var s := [c] + rest;
    assert s[1..] == rest;
  }

  /** Text without a `$` is left unchanged. */
  lemma {:induction false} InterpolatePlainText(s: string, data: map<string, Datum>)
    requires '$' !in s
    ensures Interpolate(s, data) == s
    decreases |s|
  {
    if |s| > 0 {
      assert s[0] in s;
      assert forall c :: c in s[1..] ==> c in s;
      InterpolatePlainText(s[1..], data);
      assert [s[0]] + s[1..] == s;
    }
  }

  /** One step of the scan over `s`: a whole token, or one character. */
  lemma InterpolateStep(s: string, data: map<string, Datum>)
    requires |s| > 0
    ensures var n := 1 + TokenLength(s[1..]);
      if s[0] == '$' && n > 1 then
        && s == "$" + s[1..n] + s[n..]
        && Interpolate(s, data) == Replacement(s[1..n], data) + Interpolate(s[n..], data)
      else
        && s == [s[0]] + s[1..]
        && Interpolate(s, data) == [s[0]] + Interpolate(s[1..], data)
  {
    var n := 1 + TokenLength(s[1..]);
    assert s == [s[0]] + s[1..];
    if s[0] == '$' && n > 1 {
      assert s == s[..n] + s[n..];
      assert s[..n] == "$" + s[1..n];
    }
  }

  /** When no table entry is a string or a number, every token is left as it was. */
  lemma {:induction false} InterpolateUnresolved(s: string, data: map<string, Datum>)
    requires forall k :: k in data ==> data[k].OtherValue?
    ensures Interpolate(s, data) == s
    decreases |s|
  {
    if |s| > 0 {
      var n := 1 + TokenLength(s[1..]);
      InterpolateStep(s, data);
      if s[0] == '$' && n > 1 {
        ReplacementUnresolved(s[1..n], data);
        InterpolateUnresolved(s[n..], data);
      } else {
        InterpolateUnresolved(s[1..], data);
      }
    }
  }

  lemma ReplacementUnresolved(token: string, data: map<string, Datum>)
    requires forall k :: k in data ==> data[k].OtherValue?
    ensures Replacement(token, data) == "$" + token
  {
  }

  /**
   A `$token` naming `home` in any letter case (`$HOME`, `$Home`, `$home`),
   followed by a path without further tokens, becomes the home directory
   followed by that path (`$HOME/data:/data` with home `/home/u` gives
   `/home/u/data:/data`).
   */
  lemma HomeTokenReplaced(token: string, path: string, home: string)
    requires |token| > 0 && ToLower(token) == "home"
    requires forall i :: 0 <= i < |token| ==> IsAlnum(token[i])
    requires '$' !in path && (|path| == 0 || !IsAlnum(path[0]))
    ensures Interpolate("$" + token + path, HomeTable(Some(home))) == home + path
  {
    InterpolateToken(token, path, HomeTable(Some(home)));
    InterpolatePlainText(path, HomeTable(Some(home)));
  }

  /**
   A `$token` that does not name `home` is kept, `$` included
   (`$FOO/data:/data` stays `$FOO/data:/data`).
   */
  lemma OtherTokenKept(token: string, path: string, home: Option<string>)
    requires |token| > 0 && ToLower(token) != "home"
    requires forall i :: 0 <= i < |token| ==> IsAlnum(token[i])
    requires '$' !in path && (|path| == 0 || !IsAlnum(path[0]))
    ensures Interpolate("$" + token + path, HomeTable(home)) == "$" + token + path
  {
    InterpolateToken(token, path, HomeTable(home));
    InterpolatePlainText(path, HomeTable(home));
  }

  /** Without a home directory every volume spec is left unchanged. */
  lemma NoHomeKeepsEverything(s: string)
    ensures Interpolate(s, HomeTable(None)) == s
  {
    InterpolateUnresolved(s, HomeTable(None));
  }
}
