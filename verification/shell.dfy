/**
 How the shell behind `shell.exec` cuts a command line into words, as far as
 the command layer relies on it: blanks separate words, a pair of single
 quotes protects everything between them and is itself dropped, and a quoted
 empty string is still a word. Double quotes, backslashes, `$` expansion,
 globbing, comments and operators are not read here, so every statement
 about unquoted text is made only for words of plain characters, which the
 shell leaves alone; an unterminated quote runs to the end of the line.
 */
module Shell {
  import opened Text

  /**
   The words of `s`, read from a state in which `quoted` says whether a
   single quote is open and `word` is the word read so far, `inWord` saying
   whether one has started.
   */
  function Words(s: string, quoted: bool, word: string, inWord: bool): seq<string>
    decreases |s|
  {
    if |s| == 0 then (if inWord then [word] else [])
    else if quoted then
      if s[0] == '\'' then Words(s[1..], false, word, true)
      else Words(s[1..], true, word + [s[0]], true)
    else if s[0] == '\'' then Words(s[1..], true, word, true)
    else if s[0] == ' ' then (if inWord then [word] else []) + Words(s[1..], false, "", false)
    else Words(s[1..], false, word + [s[0]], true)
  }

  /** The words the shell passes on for the command line `line`. */
  function ShellWords(line: string): seq<string>
  {
    Words(line, false, "", false)
  }

  /**
   A character the shell gives no meaning outside quotes: an ASCII letter or
   digit, or one of `-_./:@%+,=`. Blanks, quotes, `$`, `;`, `&`, `|`, `#`,
   glob characters, backslashes and control characters all fall outside.
   */
  predicate PlainChar(c: char)
  {
    'a' <= c <= 'z' || 'A' <= c <= 'Z' || '0' <= c <= '9' || c in "-_./:@%+,="
  }

  /** A word that reaches the program as written when left unquoted: plain characters only. */
  predicate Bare(w: string)
  {
    forall c :: c in w ==> PlainChar(c)
  }

  /** Unquoted text without blanks or quotes extends the current word. */
  lemma {:induction false} ReadBare(x: string, rest: string, word: string, inWord: bool)
    requires Bare(x)
    ensures Words(x + rest, false, word, inWord) == Words(rest, false, word + x, inWord || |x| > 0)
    decreases |x|
  {
    if |x| > 0 {
      var s := x + rest;
      assert s[0] == x[0] && s[1..] == x[1..] + rest;
      assert x == [x[0]] + x[1..];
      assert x[0] in x && PlainChar(x[0]);
      assert forall c :: c in x[1..] ==> c in x;
      ReadBare(x[1..], rest, word + [x[0]], true);
      assert word + [x[0]] + x[1..] == word + x;
    } else {
      assert x + rest == rest && word + x == word;
    }
  }

  /** Inside single quotes every character but the closing quote belongs to the word. */
  lemma {:induction false} ReadInsideQuotes(x: string, rest: string, word: string)
    requires '\'' !in x
    ensures Words(x + rest, true, word, true) == Words(rest, true, word + x, true)
    decreases |x|
  {
    if |x| > 0 {
      var s := x + rest;
      assert s[0] == x[0] && s[1..] == x[1..] + rest;
      assert x == [x[0]] + x[1..];
      ReadInsideQuotes(x[1..], rest, word + [x[0]]);
      assert word + [x[0]] + x[1..] == word + x;
    } else {
      assert x + rest == rest && word + x == word;
    }
  }

  /** A quoted argument adds its contents, quotes dropped, to the current word and starts one if need be. */
  lemma ReadQuoted(x: string, rest: string, word: string, inWord: bool)
    requires '\'' !in x
    ensures Words(Quote(x) + rest, false, word, inWord) == Words(rest, false, word + x, true)
  {
    var s := Quote(x) + rest;
    assert s[0] == '\'' && s[1..] == x + ("'" + rest);
    ReadInsideQuotes(x, "'" + rest, word);
    assert ("'" + rest)[1..] == rest;
  }

  /** A blank ends the current word, if one has started; a run of blanks adds no word. */
  lemma ReadBlank(rest: string, word: string, inWord: bool)
    ensures Words(" " + rest, false, word, inWord) == (if inWord then [word] else []) + Words(rest, false, "", false)
  {
    assert (" " + rest)[0] == ' ' && (" " + rest)[1..] == rest;
  }

  /** A bare word followed by a blank is one word. */
  lemma ReadBareWord(w: string, rest: string)
    requires Bare(w) && |w| > 0
    ensures ShellWords(w + " " + rest) == [w] + ShellWords(rest)
  {
    assert w + " " + rest == w + (" " + rest);
    ReadBare(w, " " + rest, "", false);
    assert "" + w == w;
    ReadBlank(rest, w, true);
  }

  /** A quoted argument followed by a blank is one word: its contents. */
  lemma ReadQuotedWord(x: string, rest: string)
    requires '\'' !in x
    ensures ShellWords(Quote(x) + " " + rest) == [x] + ShellWords(rest)
  {
    assert Quote(x) + " " + rest == Quote(x) + (" " + rest);
    ReadQuoted(x, " " + rest, "", false);
    assert "" + x == x;
    ReadBlank(rest, x, true);
  }

  /** A bare word that ends the line is the last word. */
  lemma ReadLastBare(w: string)
    requires Bare(w) && |w| > 0
    ensures ShellWords(w) == [w]
  {
    assert w == w + "";
    ReadBare(w, "", "", false);
    assert "" + w == w;
  }

  /** A quoted argument that ends the line is the last word. */
  lemma ReadLastQuoted(x: string)
    requires '\'' !in x
    ensures ShellWords(Quote(x)) == [x]
  {
    assert Quote(x) == Quote(x) + "";
    ReadQuoted(x, "", "", false);
    assert "" + x == x;
  }

  /** Blanks before the first word or after the last add no word. */
  lemma ReadLeadingBlank(rest: string)
    ensures ShellWords(" " + rest) == ShellWords(rest)
  {
    ReadBlank(rest, "", false);
  }

  /** `<verb> '<a>'` is two words: the verb and `a`. */
  lemma QuotedArgWords(verb: string, a: string)
    requires Bare(verb) && |verb| > 0 && '\'' !in a
    ensures ShellWords(verb + " " + Quote(a)) == [verb, a]
  {
    ReadBareWord(verb, Quote(a));
    ReadLastQuoted(a);
  }

  /** `<verb> '<a>' '<b>'` is three words: the verb, `a` and `b`. */
  lemma QuotedPairWords(verb: string, a: string, b: string)
    requires Bare(verb) && |verb| > 0 && '\'' !in a && '\'' !in b
    ensures ShellWords(verb + " " + Quote(a) + " " + Quote(b)) == [verb, a, b]
  {
    assert verb + " " + Quote(a) + " " + Quote(b) == verb + " " + (Quote(a) + " " + Quote(b));
    ReadBareWord(verb, Quote(a) + " " + Quote(b));
    ReadQuotedWord(a, Quote(b));
    ReadLastQuoted(b);
  }

  /** Four bare words separated by blanks are read as they are. */
  lemma BareWords4(a: string, b: string, c: string, d: string)
    requires Bare(a) && |a| > 0 && Bare(b) && |b| > 0 && Bare(c) && |c| > 0 && Bare(d) && |d| > 0
    ensures ShellWords(a + " " + b + " " + c + " " + d) == [a, b, c, d]
  {
    assert a + " " + b + " " + c + " " + d == a + " " + (b + " " + (c + " " + d));
    ReadBareWord(a, b + " " + (c + " " + d));
    ReadBareWord(b, c + " " + d);
    ReadBareWord(c, d);
    ReadLastBare(d);
  }

  /** Two bare words and a quoted argument, then the rest of the line. */
  lemma BareBareQuotedWords(a: string, b: string, x: string, rest: string)
    requires Bare(a) && |a| > 0 && Bare(b) && |b| > 0 && '\'' !in x
    ensures ShellWords(a + " " + b + " " + Quote(x) + " " + rest) == [a, b, x] + ShellWords(rest)
  {
    assert a + " " + b + " " + Quote(x) + " " + rest == a + " " + (b + " " + (Quote(x) + " " + rest));
    ReadBareWord(a, b + " " + (Quote(x) + " " + rest));
    ReadBareWord(b, Quote(x) + " " + rest);
    ReadQuotedWord(x, rest);
  }
}
