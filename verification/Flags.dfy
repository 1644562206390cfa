/** Command line flags (docker/pkg/mflag/flag.go): parseOne takes one flag off the arguments, and Parse goes on
    until there is none, pushing the letters of an unknown group back one by one.
  */
module Flags {

  /** A flag may be defined under several names; key tells flags apart. */
  datatype Flag = Flag(key: nat, isBool: bool)

  /** The defined flags, and which strings the Set of each accepts. */
  datatype Formal = Formal(flags: map<string, Flag>, accepts: (nat, string) -> bool)

  datatype SetCall = SetCall(key: nat, value: string)

  /** The arguments left, the names seen, and the calls of Set so far. */
  datatype State = State(args: seq<string>, actual: map<string, Flag>, sets: seq<SetCall>)

  datatype Error = NoError | Help | Retry | Bad | Crash

  datatype One = One(s: State, seen: bool, name: string, err: Error)

  datatype Done = Done(s: State, err: Error)

  /** The index of the first '=', or the length when there is none. */
  function EqualsAt(s: string): (n: nat)
    ensures n <= |s| && '=' !in s[..n] && (n < |s| ==> s[n] == '=')
  {
    if s == "" || s[0] == '=' then 0
    else
      var n := 1 + EqualsAt(s[1..]);
      assert s[..n] == [s[0]] + s[1..][..n - 1];
      n
  }

  predicate IsQuote(c: char) {
    c == '\"' || c == '\''
  }

  // Slicing one quote character alone from 1 to 0 panics.
  predicate LoneQuote(s: string) {
    |s| == 1 && IsQuote(s[0])
  }

  function TrimQuotes(s: string): string
    requires !LoneQuote(s)
  {
    if s != "" && IsQuote(s[0]) && s[|s| - 1] == s[0] then s[1..|s| - 1] else s
  }

  predicate IsHelp(name: string) {
    name == "-help" || name == "help" || name == "h"
  }

  function SetFlag(f: Formal, s: State, name: string, flag: Flag, value: string, checked: bool): One {
    var s1 := s.(sets := s.sets + [SetCall(flag.key, value)]);
    if checked && !f.accepts(flag.key, value) then One(s1, false, "", Bad)
    else One(s1.(actual := s1.actual[name := flag]), true, "", NoError)
  }

  function TakeOne(f: Formal, s: State): One {
    if s.args == [] then One(s, false, "", NoError)
    else
      var a := s.args[0];
      if |a| < 2 || a[0] != '-' then One(s, false, "", NoError)
      else
        var s1 := s.(args := s.args[1..]);
        if a == "--" then One(s1, false, "", NoError)
        else if a[1] == '=' then One(s, false, "", Bad)
        else
          var i := EqualsAt(a[1..]);
          var name := a[1..][..i];
          var hasValue := i < |a| - 1;
          if hasValue && LoneQuote(a[1..][i + 1..]) then One(s1, false, "", Crash)
          else if name !in f.flags then
            if IsHelp(name) then One(s1, false, "", Help)
            else if name[0] == '-' then One(s1, false, "", Bad)
            else One(s1, false, name, Retry)
          else
            var flag := f.flags[name];
            if hasValue then SetFlag(f, s1, name, flag, TrimQuotes(a[1..][i + 1..]), true)
            else if flag.isBool then SetFlag(f, s1, name, flag, "true", false)
            else if s1.args == [] then One(s1, false, "", Bad)
            else SetFlag(f, s1.(args := s1.args[1..]), name, flag, s1.args[0], true)
  }

  /** The letters of a group, each pushed back in front of the arguments and parsed. */
  function Letters(f: Formal, s: State, name: string): Done
    decreases |name|
  {
    if name == "" then Done(s, NoError)
    else
      var r := TakeOne(f, s.(args := ["-" + [name[0]]] + s.args));
      if r.seen || r.err.NoError? then Letters(f, r.s, name[1..]) else Done(r.s, Bad)
  }

  /** s is what is left of t. */
  predicate Suffix<T(==)>(s: seq<T>, t: seq<T>) {
    |s| <= |t| && s == t[|t| - |s|..]
  }

  lemma SuffixTransitive<T>(s: seq<T>, t: seq<T>, u: seq<T>)
    requires Suffix(s, t) && Suffix(t, u)
    ensures Suffix(s, u)
  {}

  /** One flag takes arguments off the front only; at least one when it was seen or is to be tried letter by letter. */
  lemma OneTakesPrefix(f: Formal, s: State)
    ensures var r := TakeOne(f, s);
      && Suffix(r.s.args, s.args)
      && (r.seen || r.err.Retry? ==> |r.s.args| < |s.args|)
      && (r.err.Retry? ==> r.name != "" && '=' !in r.name && r.name[0] != '-')
  {
    hide EqualsAt, TrimQuotes, IsHelp;
  }

  // A letter that was pushed back is always taken off again.
  lemma LetterTaken(f: Formal, s: State, c: char)
    requires c != '='
    ensures Suffix(TakeOne(f, s.(args := ["-" + [c]] + s.args)).s.args, s.args)
  {
    hide EqualsAt, TrimQuotes, IsHelp, LoneQuote;
    var s1 := s.(args := ["-" + [c]] + s.args);
    assert s1.args[1..] == s.args;
    LetterName(c);
  }

  lemma LetterName(c: char)
    requires c != '='
    ensures ("-" + [c])[1..] == [c] && EqualsAt([c]) == 1
  {
    assert [c][1..] == "";
  }

  lemma {:induction false} LettersTakePrefix(f: Formal, s: State, name: string)
    requires '=' !in name
    ensures Suffix(Letters(f, s, name).s.args, s.args)
    decreases |name|
  {
    hide TakeOne;
    if name == "" {
    } else {
      var r := TakeOne(f, s.(args := ["-" + [name[0]]] + s.args));
      LetterTaken(f, s, name[0]);
      if r.seen || r.err.NoError? {
        LettersTakePrefix(f, r.s, name[1..]);
        SuffixTransitive(Letters(f, r.s, name[1..]).s.args, r.s.args, s.args);
      }
    }
  }

  /** Parse: every turn leaves fewer arguments, so it ends. */
  function ParseAll(f: Formal, s: State): (d: Done)
    ensures Suffix(d.s.args, s.args)
    decreases |s.args|
  {
    OneTakesPrefix(f, s);
    var r := TakeOne(f, s);
    if r.seen then
      var d := ParseAll(f, r.s);
      SuffixTransitive(d.s.args, r.s.args, s.args);
      d
    else if r.err.Retry? then
      if |r.name| <= 1 then Done(r.s, Bad)
      else
        LettersTakePrefix(f, r.s, r.name);
        var l := Letters(f, r.s, r.name);
        SuffixTransitive(l.s.args, r.s.args, s.args);
        if l.err.NoError? then
          var d := ParseAll(f, l.s);
          SuffixTransitive(d.s.args, l.s.args, s.args);
          d
        else l
    else Done(r.s, r.err)
  }

  // ---- grouped letters ----

  function Separate(letters: string): seq<string> {
    if letters == "" then [] else ["-" + [letters[0]]] + Separate(letters[1..])
  }

  predicate DefinedLetter(f: Formal, c: char) {
    c != '-' && c != '=' && [c] in f.flags
  }

  /** Defined letters, all boolean except possibly the last. */
  predicate IsGroup(f: Formal, letters: string) {
    && (forall i :: 0 <= i < |letters| ==> DefinedLetter(f, letters[i]))
    && forall i :: 0 <= i < |letters| - 1 ==> f.flags[[letters[i]]].isBool
  }

  function TakeLetter(f: Formal, s: State, c: char): One
    requires DefinedLetter(f, c)
  {
    var flag := f.flags[[c]];
    if flag.isBool then SetFlag(f, s, [c], flag, "true", false)
    else if s.args == [] then One(s, false, "", Bad)
    else SetFlag(f, s.(args := s.args[1..]), [c], flag, s.args[0], true)
  }

  lemma OneLetter(f: Formal, s: State, c: char, rest: seq<string>)
    requires DefinedLetter(f, c)
    ensures TakeOne(f, s.(args := ["-" + [c]] + rest)) == TakeLetter(f, s.(args := rest), c)
  {
    hide EqualsAt, SetFlag;
    var s1 := s.(args := ["-" + [c]] + rest);
    assert s1.args[1..] == rest;
    LetterName(c);
    assert [c][..1] == [c];
  }

  // From any letter of the group on, trying the letters and parsing them as arguments do the same.
  lemma {:induction false} LettersSame(f: Formal, s: State, letters: string, rest: seq<string>)
    requires letters != "" && IsGroup(f, letters)
    ensures var l := Letters(f, s.(args := rest), letters);
      ParseAll(f, s.(args := Separate(letters) + rest)) == if l.err.NoError? then ParseAll(f, l.s) else l
    decreases |letters|
  {
    hide TakeOne;
    var c, more := letters[0], letters[1..];
    var s0, s1 := s.(args := rest), s.(args := Separate(letters) + rest);
    var tail := Separate(more) + rest;
    assert s1.args == ["-" + [c]] + tail;
    OneLetter(f, s, c, rest);
    OneLetter(f, s, c, tail);
    var r := TakeLetter(f, s0, c);
    if more == "" {
      assert tail == rest;
      assert Letters(f, r.s, more) == Done(r.s, NoError);
    } else {
      assert IsGroup(f, more) by {
        assert forall i :: 0 <= i < |more| ==> more[i] == letters[i + 1];
      }
      LettersSame(f, r.s, more, rest);
      assert r.s.(args := rest) == r.s;
      assert TakeLetter(f, s.(args := tail), c).s == r.s.(args := tail);
    }
  }

  /** A group of defined letters, all boolean except possibly the last, does what the letters given separately do. */
  lemma GroupSameAsSeparate(f: Formal, s: State, letters: string, rest: seq<string>)
    requires |letters| > 1 && IsGroup(f, letters) && letters !in f.flags && !IsHelp(letters)
    ensures ParseAll(f, s.(args := ["-" + letters] + rest)) == ParseAll(f, s.(args := Separate(letters) + rest))
  {
    var s1 := s.(args := ["-" + letters] + rest);
    assert TakeOne(f, s1) == One(s.(args := rest), false, letters, Retry) by {
      hide IsGroup, IsHelp;
      GroupName(f, letters);
      assert s1.args[1..] == rest && ("-" + letters)[1..] == letters;
    }
    hide TakeOne, Letters;
    LettersSame(f, s, letters, rest);
  }

  lemma GroupName(f: Formal, letters: string)
    requires |letters| > 1 && IsGroup(f, letters)
    ensures EqualsAt(letters) == |letters| && letters[..|letters|] == letters && letters[0] != '-' && letters[0] != '='
    ensures ("-" + letters)[1] == letters[0]
  {
    var n := EqualsAt(letters);
    assert n < |letters| ==> DefinedLetter(f, letters[n]);
    assert DefinedLetter(f, letters[0]);
  }

  /** A letter that takes a value ends the likeness: in the middle of a group it takes the next argument, on its own
      the next letter. */
  lemma ValueInTheMiddle(f: Formal, s: State, v: char, b: char, x: string)
    requires DefinedLetter(f, v) && DefinedLetter(f, b) && !f.flags[[v]].isBool && f.flags[[b]].isBool
    requires [v, b] !in f.flags && !IsHelp([v, b]) && (forall k, w :: f.accepts(k, w)) && (|x| < 2 || x[0] != '-')
    ensures ParseAll(f, s.(args := ["-" + [v, b], x])).s.sets ==
      s.sets + [SetCall(f.flags[[v]].key, x), SetCall(f.flags[[b]].key, "true")]
    ensures ParseAll(f, s.(args := ["-" + [v], "-" + [b], x])).s.sets == s.sets + [SetCall(f.flags[[v]].key, "-" + [b])]
  {
    hide TakeOne;
    TwoLetters(f, s, v, b, x);
    var one := s.(args := [x]);
    assert ["-" + [v], "-" + [b], x] == ["-" + [v]] + ["-" + [b], x];
    OneLetter(f, s, v, ["-" + [b], x]);
    assert ["-" + [b], x][1..] == [x];
    var r := TakeLetter(f, s.(args := ["-" + [b], x]), v);
    NotAFlag(f, r.s, x);
  }

  lemma NotAFlag(f: Formal, s: State, x: string)
    requires s.args == [x] && (|x| < 2 || x[0] != '-')
    ensures TakeOne(f, s) == One(s, false, "", NoError)
  {}

  lemma NoArgsLeft(f: Formal, s: State)
    requires s.args == []
    ensures ParseAll(f, s) == Done(s, NoError)
  {}

  lemma TwoLetters(f: Formal, s: State, v: char, b: char, x: string)
    requires DefinedLetter(f, v) && DefinedLetter(f, b) && !f.flags[[v]].isBool && f.flags[[b]].isBool
    requires [v, b] !in f.flags && !IsHelp([v, b]) && forall k, w :: f.accepts(k, w)
    ensures ParseAll(f, s.(args := ["-" + [v, b], x])).s.sets ==
      s.sets + [SetCall(f.flags[[v]].key, x), SetCall(f.flags[[b]].key, "true")]
  {
    var name := [v, b];
    var s1 := s.(args := ["-" + name, x]);
    assert TakeOne(f, s1) == One(s.(args := [x]), false, name, Retry) by {
      NoEquals(v, b);
      assert s1.args[1..] == [x] && ("-" + name)[1..] == name && name[..2] == name;
    }
    hide TakeOne, EqualsAt;
    assert name[1..] == [b] && [b][1..] == "";
    OneLetter(f, s, v, [x]);
    var r := TakeLetter(f, s.(args := [x]), v);
    assert [x][1..] == [];
    OneLetter(f, r.s, b, []);
    var q := TakeLetter(f, r.s.(args := []), b);
    assert Letters(f, q.s, "") == Done(q.s, NoError);
    assert Letters(f, r.s, [b]) == Done(q.s, NoError);
    assert Letters(f, s.(args := [x]), name) == Done(q.s, NoError);
    NoArgsLeft(f, q.s);
  }

  lemma NoEquals(v: char, b: char)
    requires v != '=' && b != '='
    ensures EqualsAt([v, b]) == 2
  {
    assert [v, b][1..] == [b] && [b][1..] == "";
    assert EqualsAt([b]) == 1;
  }

  // ---- values after '=' ----

  lemma EqualsAfter(n: string, v: string)
    requires '=' !in n
    ensures EqualsAt(n + "=" + v) == |n|
    ensures (n + "=" + v)[..|n|] == n && (n + "=" + v)[|n| + 1..] == v
  {
    var s := n + "=" + v;
    assert s[|n|] == '=' && s[..|n|] == n;
  }

  // What the parser makes of a value after '='.
  lemma TakeAttached(f: Formal, s: State, n: string, v: string, rest: seq<string>)
    requires n in f.flags && n != "" && '=' !in n && !LoneQuote(v)
    ensures TakeOne(f, s.(args := ["-" + n + "=" + v] + rest)) ==
      SetFlag(f, s.(args := rest), n, f.flags[n], TrimQuotes(v), true)
  {
    hide EqualsAt, TrimQuotes, LoneQuote, SetFlag;
    var a := "-" + n + "=" + v;
    EqualsAfter(n, v);
    assert a[1..] == n + "=" + v && a[1] == n[0];
    assert ([a] + rest)[1..] == rest;
  }

  /** A value written after '=' is what the flag is set to, unless it is in quotes. */
  lemma ValueAttached(f: Formal, s: State, n: string, v: string, rest: seq<string>)
    requires n in f.flags && n != "" && '=' !in n
    requires v == "" || v[0] != v[|v| - 1] || (v[0] != '\"' && v[0] != '\'')
    ensures var flag := f.flags[n];
      var sets := s.sets + [SetCall(flag.key, v)];
      ParseAll(f, s.(args := ["-" + n + "=" + v] + rest)) ==
        if f.accepts(flag.key, v) then ParseAll(f, State(rest, s.actual[n := flag], sets))
        else Done(State(rest, s.actual, sets), Bad)
  {
    TakeAttached(f, s, n, v, rest);
  }

  /** Quotes around it, if they match, are taken off first. */
  lemma ValueQuoted(f: Formal, s: State, n: string, q: char, w: string, rest: seq<string>)
    requires n in f.flags && n != "" && '=' !in n && (q == '\"' || q == '\'')
    ensures var flag := f.flags[n];
      var sets := s.sets + [SetCall(flag.key, w)];
      ParseAll(f, s.(args := ["-" + n + "=" + [q] + w + [q]] + rest)) ==
        if f.accepts(flag.key, w) then ParseAll(f, State(rest, s.actual[n := flag], sets))
        else Done(State(rest, s.actual, sets), Bad)
  {
    var v := [q] + w + [q];
    assert v[1..|v| - 1] == w && v[0] == v[|v| - 1] == q;
    assert "-" + n + "=" + [q] + w + [q] == "-" + n + "=" + v;
    TakeAttached(f, s, n, v, rest);
  }

  // A defined name on its own.
  lemma TakeName(f: Formal, s: State, n: string, rest: seq<string>)
    requires n in f.flags && n != "" && n != "-" && '=' !in n
    ensures var flag := f.flags[n];
      TakeOne(f, s.(args := ["-" + n] + rest)) ==
        if flag.isBool then SetFlag(f, s.(args := rest), n, flag, "true", false)
        else if rest == [] then One(s.(args := rest), false, "", Bad)
        else SetFlag(f, s.(args := rest[1..]), n, flag, rest[0], true)
  {
    hide TrimQuotes, LoneQuote, SetFlag;
    var a := "-" + n;
    assert a[1..] == n && a[1] == n[0] && a[1..][..|n|] == n;
    assert EqualsAt(n) == |n|;
    assert ([a] + rest)[1..] == rest;
  }

  /** For a flag that takes a value, a value after '=' that is not in quotes has the effect of the value as the next
      argument. The name "-" is none of these: alone it is the end of the flags. */
  lemma AttachedSameAsSeparate(f: Formal, s: State, n: string, v: string, rest: seq<string>)
    requires n in f.flags && n != "" && n != "-" && '=' !in n && !f.flags[n].isBool
    requires v == "" || v[0] != v[|v| - 1] || (v[0] != '\"' && v[0] != '\'')
    ensures ParseAll(f, s.(args := ["-" + n + "=" + v] + rest)) == ParseAll(f, s.(args := ["-" + n, v] + rest))
  {
    ValueAttached(f, s, n, v, rest);
    assert ["-" + n, v] + rest == ["-" + n] + ([v] + rest);
    assert ([v] + rest)[1..] == rest;
    TakeName(f, s, n, [v] + rest);
  }

  /** A boolean flag without a value is set to true, and a flag that needs one and has none is an error. */
  lemma NameAlone(f: Formal, s: State, n: string, rest: seq<string>)
    requires n in f.flags && n != "" && n != "-" && '=' !in n && (f.flags[n].isBool || rest == [])
    ensures var flag := f.flags[n];
      ParseAll(f, s.(args := ["-" + n] + rest)) ==
        if flag.isBool then ParseAll(f, State(rest, s.actual[n := flag], s.sets + [SetCall(flag.key, "true")]))
        else Done(s.(args := rest), Bad)
  {
    TakeName(f, s, n, rest);
  }

  /** Parsing ends without an error at the first argument that is no flag, which stays, and at "--", which goes. */
  lemma EndOfFlags(f: Formal, s: State, a: string, rest: seq<string>)
    ensures a == "" || a == "-" || a[0] != '-' ==>
      ParseAll(f, s.(args := [a] + rest)) == Done(s.(args := [a] + rest), NoError)
    ensures ParseAll(f, s.(args := ["--"] + rest)) == Done(s.(args := rest), NoError)
  {
    assert (["--"] + rest)[1..] == rest;
  }

  /** A name that is not defined asks for help when it is one of the help names, and is an error when it is a single
      letter, or long. */
  lemma UnknownName(f: Formal, s: State, n: string, rest: seq<string>)
    requires n !in f.flags && '=' !in n && n != "" && n != "-"
    ensures n == "h" || n == "help" || n == "-help" ==>
      ParseAll(f, s.(args := ["-" + n] + rest)) == Done(s.(args := rest), Help)
    ensures (|n| == 1 && n != "h") || (n[0] == '-' && n != "-help") ==>
      ParseAll(f, s.(args := ["-" + n] + rest)) == Done(s.(args := rest), Bad)
  {
    TakeUnknown(f, s, n, rest);
    hide TakeOne;
  }

  lemma TakeUnknown(f: Formal, s: State, n: string, rest: seq<string>)
    requires n !in f.flags && '=' !in n && n != "" && n != "-"
    ensures TakeOne(f, s.(args := ["-" + n] + rest)) ==
      if n == "h" || n == "help" || n == "-help" then One(s.(args := rest), false, "", Help)
      else if n[0] == '-' then One(s.(args := rest), false, "", Bad)
      else One(s.(args := rest), false, n, Retry)
  {
    hide TrimQuotes, LoneQuote;
    var a := "-" + n;
    assert a[1..] == n && a[1] == n[0] && a[1..][..|n|] == n;
    assert EqualsAt(n) == |n|;
    assert ([a] + rest)[1..] == rest;
  }

  /** A group whose first letter is not defined is an error, with nothing set. */
  lemma UnknownGroup(f: Formal, s: State, n: string, rest: seq<string>)
    requires n !in f.flags && '=' !in n && |n| > 1 && n[0] != '-' && n != "help" && [n[0]] !in f.flags
    ensures ParseAll(f, s.(args := ["-" + n] + rest)) == Done(s.(args := rest), Bad)
  {
    TakeUnknown(f, s, n, rest);
    var s1 := s.(args := rest);
    TakeUnknown(f, s, [n[0]], rest);
    assert s1.(args := ["-" + [n[0]]] + s1.args) == s.(args := ["-" + [n[0]]] + rest);
    hide TakeOne;
    assert Letters(f, s1, n) == Done(s1, Bad);
  }

  // ---- the program ----

  class FlagSet {
    const formal: Formal
    var args: seq<string>
    var actual: map<string, Flag>
    ghost var sets: seq<SetCall>

    ghost function View(): State
      reads this
    {
      State(args, actual, sets)
    }

    constructor (f: Formal)
      ensures formal == f && View() == State([], map[], [])
    {
      formal, args, actual, sets := f, [], map[], [];
    }

    method Set(key: nat, value: string) returns (ok: bool)
      modifies this`sets
      ensures sets == old(sets) + [SetCall(key, value)] && ok == formal.accepts(key, value)
    {
      sets := sets + [SetCall(key, value)];
      ok := formal.accepts(key, value);
    }

    method ParseOne() returns (seen: bool, name: string, err: Error)
      modifies this
      ensures One(View(), seen, name, err) == TakeOne(formal, old(View()))
    {
      if args == [] {
        return false, "", NoError;
      }
      var s := args[0];
      if |s| < 2 || s[0] != '-' {
        return false, "", NoError;
      }
      if s == "--" {
        args := args[1..];
        return false, "", NoError;
      }
      name := s[1..];
      if name[0] == '=' {
        return false, "", Bad;
      }
      args := args[1..];
      var hasValue, value := false, "";
      var i := EqualsAt(name);
      if i < |name| {
        var raw := name[i + 1..];
        if LoneQuote(raw) {
          return false, "", Crash;
        }
        hasValue, value := true, TrimQuotes(raw);
      }
      name := name[..i];
      if name !in formal.flags {
        if IsHelp(name) {
          return false, "", Help;
        }
        if name[0] == '-' {
          return false, "", Bad;
        }
        return false, name, Retry;
      }
      var flag := formal.flags[name];
      if flag.isBool && !hasValue {
        var _ := Set(flag.key, "true");
      } else {
        if !hasValue {
          if args == [] {
            return false, "", Bad;
          }
          value, args := args[0], args[1..];
        }
        var ok := Set(flag.key, value);
        if !ok {
          return false, "", Bad;
        }
      }
      actual := actual[name := flag];
      return true, "", NoError;
    }

    /** Parse with the errors returned to the caller. */
    method Parse(arguments: seq<string>) returns (err: Error)
      modifies this
      ensures Done(View(), err) == ParseAll(formal, old(View()).(args := arguments))
    {
      args := arguments;
      ghost var start := View();
      while true
        invariant ParseAll(formal, View()) == ParseAll(formal, start)
        decreases |args|
      {
        hide EqualsAt;
        ghost var turn := View();
        OneTakesPrefix(formal, turn);
        var seen, name;
        seen, name, err := ParseOne();
        if seen {
          continue;
        }
        if err.NoError? {
          return NoError;
        }
        if !err.Retry? {
          return err;
        }
        if |name| <= 1 {
          return Bad;
        }
        LettersTakePrefix(formal, View(), name);
        err := ParseLetters(name);
        if !err.NoError? {
          return err;
        }
      }
    }

    // The letters of an unknown name.
    method ParseLetters(name: string) returns (err: Error)
      modifies this
      ensures Done(View(), err) == Letters(formal, old(View()), name)
    {
      assert name[0..] == name;
      for i := 0 to |name|
        invariant Letters(formal, View(), name[i..]) == Letters(formal, old(View()), name)
      {
        assert name[i..][1..] == name[i + 1..];
        args := ["-" + [name[i]]] + args;
        var seen, _, err2 := ParseOne();
        if !seen && !err2.NoError? {
          return Bad;
        }
      }
      return NoError;
    }
  }
}
