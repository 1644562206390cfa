/** Quoting arguments for a shell (quote and ShellQuoteArguments in docker/utils/utils.go), against the token
    recognition and quoting rules of sections 2.3 and 2.2 of the POSIX Shell Command Language.
  */
module ShellQuote {
  import opened Wrappers

  const SPECIAL := "\\'\"`${[|&;<>()~*?! \t\n"

  /** A word quote writes as it is. */
  predicate Simple(word: string) {
    word != "" && forall c :: c in word ==> c !in SPECIAL
  }

  function Escaped(word: string): string {
    if word == "" then "" else (if word[0] == '\'' then "'\\''" else [word[0]]) + Escaped(word[1..])
  }

  function Quoted(word: string): string {
    if Simple(word) then word else "'" + Escaped(word) + "'"
  }

  function QuotedArgs(args: seq<string>): string {
    if args == [] then "" else Quoted(args[0]) + QuotedRest(args[1..])
  }

  function QuotedRest(args: seq<string>): string {
    if args == [] then "" else " " + Quoted(args[0]) + QuotedRest(args[1..])
  }

  // ---- the program ----

  method Quote(word: string, buf0: string) returns (buf: string)
    ensures buf == buf0 + Quoted(word)
  {
    hide Escaped, Simple, ContainsAny;
    buf := buf0;
    SimpleIs(word);
    if word != "" && !ContainsAny(word, SPECIAL) {
      return buf + word;
    }
    buf := buf + "'";
    ghost var start := buf;
    EscapedEmpty();
    for i := 0 to |word|
      invariant buf == start + Escaped(word[..i])
    {
      EscapedAppend(word[..i], word[i]);
      assert word[..i + 1] == word[..i] + [word[i]];
      if word[i] == '\'' {
        buf := buf + "'\\''";
      } else {
        buf := buf + [word[i]];
      }
    }
    assert word[..|word|] == word;
    buf := buf + "'";
  }

  lemma SimpleIs(word: string)
    ensures Simple(word) <==> word != "" && !ContainsAny(word, SPECIAL)
  {}

  lemma EscapedEmpty()
    ensures Escaped("") == ""
  {}

  predicate ContainsAny(s: string, chars: string) {
    exists c :: c in s && c in chars
  }

  lemma {:induction false} EscapedAppend(word: string, c: char)
    ensures Escaped(word + [c]) == Escaped(word) + if c == '\'' then "'\\''" else [c]
  {
    if word != "" {
      assert (word + [c])[1..] == word[1..] + [c];
      EscapedAppend(word[1..], c);
    } else {
      assert word + [c] == [c];
      assert Escaped([c]) == (if c == '\'' then "'\\''" else [c]) + Escaped("");
    }
  }

  method ShellQuoteArguments(args: seq<string>) returns (s: string)
    ensures s == QuotedArgs(args)
  {
    hide QuotedArgs, Quoted;
    s := "";
    NoArgs();
    for i := 0 to |args|
      invariant s == QuotedArgs(args[..i])
    {
      QuotedArgsAppend(args[..i], args[i]);
      assert args[..i + 1] == args[..i] + [args[i]];
      if i != 0 {
        s := s + " ";
      }
      s := Quote(args[i], s);
    }
    assert args[..|args|] == args;
  }

  lemma NoArgs()
    ensures QuotedArgs([]) == ""
  {}

  lemma {:induction false} QuotedRestAppend(args: seq<string>, a: string)
    ensures QuotedRest(args + [a]) == QuotedRest(args) + " " + Quoted(a)
  {
    if args != [] {
      assert (args + [a])[1..] == args[1..] + [a];
      QuotedRestAppend(args[1..], a);
    } else {
      assert args + [a] == [a];
      assert [a][1..] == [];
    }
  }

  lemma QuotedArgsAppend(args: seq<string>, a: string)
    ensures QuotedArgs(args + [a]) == QuotedArgs(args) + (if args == [] then "" else " ") + Quoted(a)
  {
    if args != [] {
      assert (args + [a])[1..] == args[1..] + [a];
      QuotedRestAppend(args[1..], a);
    } else {
      assert args + [a] == [a];
      assert [a][1..] == [];
    }
  }

  /** Just the words without any of these characters, and not empty, are written bare: quotes, backslash, blanks and
      newline, and what any shell expands, matches, redirects, groups, backgrounds or takes from its history. */
  lemma BareExactly(word: string)
    ensures Quoted(word) == word <==>
      && word != ""
      && '\\' !in word && '\'' !in word && '\"' !in word && ' ' !in word && '\t' !in word && '\n' !in word
      && '`' !in word && '$' !in word && '{' !in word && '[' !in word && '*' !in word && '?' !in word && '~' !in word
      && '<' !in word && '>' !in word && '(' !in word && ')' !in word && '|' !in word && '&' !in word && ';' !in word
      && '!' !in word
  {
    if !Simple(word) {
      EscapedLength(word);
    }
    SpecialIs();
  }

  lemma {:induction false} EscapedLength(word: string)
    ensures |Escaped(word)| >= |word|
  {
    if word == "" {
    } else {
      EscapedLength(word[1..]);
    }
  }

  lemma SpecialIs()
    ensures forall c :: c in SPECIAL <==>
      || c == '\\' || c == '\'' || c == '\"' || c == ' ' || c == '\t' || c == '\n' || c == '`' || c == '$' || c == '{'
      || c == '[' || c == '*' || c == '?' || c == '~' || c == '<' || c == '>' || c == '(' || c == ')' || c == '|'
      || c == '&' || c == ';' || c == '!'
  {}

  // ---- the shell ----

  datatype Mode = Bare | Backslash | Single | Double | DoubleBackslash | Comment

  /** Characters that, unquoted, end the command, start an expansion or match file names: what follows is more than
      plain words. */
  const BEYOND := "|&;<>()$`*?[~\n"

  function Word(cur: Option<string>): string {
    if cur.Some? then cur.value else ""
  }

  /** The words the shell makes of s, quotes removed, after words, in the middle of cur; None when s is more than
      plain words or a quote is left open. */
  function Scan(s: string, mode: Mode, cur: Option<string>, words: seq<string>): Option<seq<string>>
    decreases |s|, 1
  {
    if s != "" then ScanChar(s[0], s[1..], mode, cur, words)
    else if mode.Bare? || mode.Comment? then Some(if cur.Some? then words + [cur.value] else words)
    else None
  }

  function ScanChar(c: char, rest: string, mode: Mode, cur: Option<string>, words: seq<string>): Option<seq<string>>
    decreases |rest| + 1, 0
  {
    match mode
    case Bare =>
      if c == '\\' then Scan(rest, Backslash, cur, words)
      else if c == '\'' then Scan(rest, Single, Some(Word(cur)), words)
      else if c == '\"' then Scan(rest, Double, Some(Word(cur)), words)
      else if c in BEYOND then None
      else if c == ' ' || c == '\t' then Scan(rest, Bare, None, if cur.Some? then words + [cur.value] else words)
      else if c == '#' && cur.None? then Scan(rest, Comment, None, words)
      else Scan(rest, Bare, Some(Word(cur) + [c]), words)
    case Backslash =>
      if c == '\n' then Scan(rest, Bare, cur, words) else Scan(rest, Bare, Some(Word(cur) + [c]), words)
    case Single =>
      if c == '\'' then Scan(rest, Bare, cur, words) else Scan(rest, Single, Some(Word(cur) + [c]), words)
    case Double =>
      if c == '\"' then Scan(rest, Bare, cur, words)
      else if c == '\\' then Scan(rest, DoubleBackslash, cur, words)
      else if c == '$' || c == '`' then None
      else Scan(rest, Double, Some(Word(cur) + [c]), words)
    case DoubleBackslash =>
      if c == '\n' then Scan(rest, Double, cur, words)
      else if c in "$`\"\\" then Scan(rest, Double, Some(Word(cur) + [c]), words)
      else Scan(rest, Double, Some(Word(cur) + ['\\', c]), words)
    case Comment =>
      if c == '\n' then None else Scan(rest, Comment, cur, words)
  }

  lemma ScanCons(c: char, rest: string, mode: Mode, cur: Option<string>, words: seq<string>)
    ensures Scan([c] + rest, mode, cur, words) == ScanChar(c, rest, mode, cur, words)
  {
    hide ScanChar;
    assert ([c] + rest)[1..] == rest;
  }

  function Split(s: string): Option<seq<string>> {
    Scan(s, Bare, None, [])
  }

  // ---- the round trip ----

  // A word with nothing special in it is read as it stands, unless it would begin a comment.
  lemma {:induction false} ScanSimple(w: string, tail: string, cur: Option<string>, words: seq<string>)
    requires forall c :: c in w ==> c !in SPECIAL
    requires cur.None? ==> w != "" && w[0] != '#'
    ensures Scan(w + tail, Bare, cur, words) == Scan(tail, Bare, Some(Word(cur) + w), words)
  {
    if w == "" {
      assert w + tail == tail && Word(cur) + w == Word(cur);
    } else {
      assert (w + tail)[1..] == w[1..] + tail;
      assert w[0] in w && w[0] !in SPECIAL;
      PlainChar(w[0]);
      ScanSimple(w[1..], tail, Some(Word(cur) + [w[0]]), words);
      assert Word(cur) + [w[0]] + w[1..] == Word(cur) + w;
    }
  }

  lemma PlainChar(c: char)
    requires c !in SPECIAL
    ensures c != '\\' && c != '\'' && c != '\"' && c !in BEYOND && c != ' ' && c != '\t'
  {
    forall x | x in BEYOND || x == '\\' || x == '\'' || x == '\"' || x == ' ' || x == '\t'
      ensures x in SPECIAL
    {
    }
  }

  // Inside the single quotes every escaped character comes back.
  lemma {:induction false} ScanEscaped(w: string, tail: string, got: string, words: seq<string>)
    ensures Scan(Escaped(w) + "'" + tail, Single, Some(got), words) == Scan(tail, Bare, Some(got + w), words)
  {
    hide Scan;
    if w == "" {
      assert Escaped(w) + "'" + tail == ['\''] + tail;
      ScanCons('\'', tail, Single, Some(got), words);
      assert got + w == got;
    } else {
      var c, more := w[0], Escaped(w[1..]) + "'" + tail;
      ScanEscaped(w[1..], tail, got + [c], words);
      assert got + [c] + w[1..] == got + w;
      if c == '\'' {
        assert Escaped(w) + "'" + tail == "'\\''" + more;
        EscapedQuote(more, got, words);
      } else {
        assert Escaped(w) + "'" + tail == [c] + more;
        ScanCons(c, more, Single, Some(got), words);
      }
    }
  }

  // A quote closed, escaped and opened again.
  lemma EscapedQuote(more: string, got: string, words: seq<string>)
    ensures Scan("'\\''" + more, Single, Some(got), words) == Scan(more, Single, Some(got + ['\'']), words)
  {
    hide Scan;
    var one := ['\''] + more;
    var two := ['\''] + one;
    var three := ['\\'] + two;
    assert "'\\''" + more == ['\''] + three;
    ScanCons('\'', three, Single, Some(got), words);
    ScanCons('\\', two, Bare, Some(got), words);
    ScanCons('\'', one, Backslash, Some(got), words);
    ScanCons('\'', more, Bare, Some(got + ['\'']), words);
  }

  /** A quoted word at the start of a token is read back whole, unless it is a bare word that begins a comment. */
  lemma ScanQuoted(w: string, tail: string, words: seq<string>)
    requires !Commented(w)
    ensures Scan(Quoted(w) + tail, Bare, None, words) == Scan(tail, Bare, Some(w), words)
  {
    hide Scan, ScanChar, Escaped, Simple, Commented;
    assert "" + w == w;
    if Simple(w) {
      BareWord(w, tail, words);
    } else {
      var body := Escaped(w) + "'" + tail;
      assert Quoted(w) + tail == ['\''] + body;
      OpenQuote(body, words);
      ScanEscaped(w, tail, "", words);
    }
  }

  lemma BareWord(w: string, tail: string, words: seq<string>)
    requires Simple(w) && !Commented(w)
    ensures Scan(w + tail, Bare, None, words) == Scan(tail, Bare, Some(w), words)
  {
    hide Scan;
    ScanSimple(w, tail, None, words);
    assert "" + w == w;
  }

  lemma OpenQuote(body: string, words: seq<string>)
    ensures Scan(['\''] + body, Bare, None, words) == Scan(body, Single, Some(""), words)
  {
    hide Scan;
    ScanCons('\'', body, Bare, None, words);
  }

  lemma Blank(tail: string, w: string, words: seq<string>)
    ensures Scan(" " + tail, Bare, Some(w), words) == Scan(tail, Bare, None, words + [w])
  {
    assert (" " + tail)[1..] == tail;
  }

  /** The words before the first one that begins a comment. */
  predicate Commented(w: string) {
    Simple(w) && w[0] == '#'
  }

  lemma {:induction false} ScanComment(s: string, words: seq<string>)
    ensures Scan(s, Comment, None, words) == None || Scan(s, Comment, None, words) == Some(words)
  {
    if s == "" {
    } else {
      ScanComment(s[1..], words);
    }
  }

  lemma CommentSwallows(w: string, tail: string, words: seq<string>)
    requires Commented(w)
    ensures Scan(Quoted(w) + tail, Bare, None, words) == None ||
      Scan(Quoted(w) + tail, Bare, None, words) == Some(words)
  {
    var s := w + tail;
    assert w[0] in w;
    PlainChar('#');
    ScanComment(s[1..], words);
  }

  // From the end of one word on.
  lemma {:induction false} ScanRest(args: seq<string>, w: string, words: seq<string>)
    ensures Scan(QuotedRest(args), Bare, Some(w), words) == Some(words + [w] + args) <==>
      forall a :: a in args ==> !Commented(a)
    decreases |args|, 0
  {
    hide Scan, Quoted, Commented;
    if args == [] {
      ScanEnd(w, words);
      assert words + [w] + args == words + [w];
    } else {
      var a, more := args[0], QuotedRest(args[1..]);
      assert QuotedRest(args) == " " + (Quoted(a) + more);
      Blank(Quoted(a) + more, w, words);
      FirstWord(a, args[1..], words + [w]);
      assert words + [w] + args == words + [w] + ([a] + args[1..]);
      assert words + [w] + ([a] + args[1..]) == words + [w] + [a] + args[1..];
      AllOf(args);
    }
  }

  lemma AllOf(args: seq<string>)
    requires args != []
    ensures (forall a :: a in args ==> !Commented(a)) <==>
      !Commented(args[0]) && forall a :: a in args[1..] ==> !Commented(a)
  {
    hide Commented;
    assert args == [args[0]] + args[1..];
  }

  lemma ScanEnd(w: string, words: seq<string>)
    ensures Scan("", Bare, Some(w), words) == Some(words + [w])
  {}

  // From the start of a word on.
  lemma {:induction false} FirstWord(a: string, args: seq<string>, words: seq<string>)
    ensures Scan(Quoted(a) + QuotedRest(args), Bare, None, words) == Some(words + [a] + args) <==>
      !Commented(a) && forall b :: b in args ==> !Commented(b)
    decreases |args|, 1
  {
    hide Scan, Quoted;
    if Commented(a) {
      CommentSwallows(a, QuotedRest(args), words);
      assert |words + [a] + args| > |words|;
    } else {
      ScanQuoted(a, QuotedRest(args), words);
      ScanRest(args, a, words);
    }
  }

  /** Splitting and unquoting the quoted arguments gives the arguments back if and only if none of them is a bare
      word that begins with '#'. */
  lemma QuoteRoundTrip(args: seq<string>)
    ensures Split(QuotedArgs(args)) == Some(args) <==> forall a :: a in args ==> !Commented(a)
  {
    hide Scan, Quoted, Commented;
    if args == [] {
      assert Scan("", Bare, None, []) == Some([]) by {
        EmptyLine();
      }
    } else {
      FirstWord(args[0], args[1..], []);
      assert [] + [args[0]] + args[1..] == args;
      AllOf(args);
    }
  }

  lemma EmptyLine()
    ensures Scan("", Bare, None, []) == Some([])
  {}
}
