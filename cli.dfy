/**
 * The help text of the command line (cli.go): the type word and usage text
 * pulled out of each flag's usage string, the default-value suffix, the
 * column widths, and the padded option lines.
 *
 * The `flag` package is replaced by explicit flag records in the order the
 * help lists them; rendering the surrounding template is not modelled.
 */
module Cli {
  import Strings

  /** A registered flag as `flag.Lookup` gives it: its name, usage string and default value text. */
  datatype Flag = Flag(name: string, usage: string, defValue: string)

  /** `cliUsage`: one row of the option table. */
  datatype Usage = Usage(name: string, flagType: string, usage: string, defValue: string)

  const Backtick: char := '`'
  const Quote: char := '\''

  /** The delimiter of the type word: a single quote if the usage holds one anywhere, a backtick otherwise. */
  function Delimiter(usage: string): char {
    if Quote in usage then Quote else Backtick
  }

  /**
   * `getTypeAndUsage`: the lower-cased word between the first two
   * delimiters, and the usage with the delimiters (backtick) or the quoted
   * word (single quote) removed and white space trimmed; without two
   * delimiters, no type and the usage unchanged.
   */
  function GetTypeAndUsage(usage: string): (r: (string, string))
    ensures |r.1| <= |usage|
    ensures r == ("", usage) || |r.0| + 2 <= |usage|
  {
    var d := Delimiter(usage);
    var s := Strings.IndexOf(usage, d);
    if s == -1 then ("", usage)
    else
      var ns := usage[s + 1..];
      var e := Strings.IndexOf(ns, d);
      if e == -1 then ("", usage)
      else
        var stripped := if d == Quote then Strings.RemoveAll(usage, [d] + ns[..e] + [d])
                        else Strings.RemoveAll(usage, [d]);
        (Strings.Lower(ns[..e]), Strings.TrimSpace(stripped))
  }

  /** The search of `hideDefValue` with early return. */
  function Hidden(hidden: seq<string>, name: string): (r: bool)
    ensures r <==> name in hidden
  {
    if hidden == [] then false
    else if hidden[0] == name then true
    else Hidden(hidden[1..], name)
  }

  /** `getDefaultValue`: nothing for an empty default or a hidden flag, " (default: <val>)" otherwise. */
  function GetDefaultValue(val: string, name: string, hidden: seq<string>): (r: string)
    ensures r == "" <==> val == "" || Hidden(hidden, name)
    ensures r != "" ==> r == " (default: " + val + ")"
  {
    if |val| == 0 then ""
    else if Hidden(hidden, name) then ""
    else " (default: " + val + ")"
  }

  /**
   * The option row `getOptions` builds for a flag. The ensures clause only
   * unfolds the body for callers; it is not a property of the row.
   */
  function ToUsage(f: Flag, hidden: seq<string>): (r: Usage)
    ensures r.name == "-" + f.name && r.flagType == TypeOf(f)
  {
    var typeAndUsage := GetTypeAndUsage(f.usage);
    Usage("-" + f.name, typeAndUsage.0, typeAndUsage.1, GetDefaultValue(f.defValue, f.name, hidden))
  }

  /** The rows for the flags, in order. The ensures clause is an unfolding aid for callers. */
  function Options(flags: seq<Flag>, hidden: seq<string>): (r: seq<Usage>)
    ensures |r| == |flags|
  {
    seq(|flags|, i requires 0 <= i < |flags| => ToUsage(flags[i], hidden))
  }

  /** The row `getOptions` appends for -h. */
  const HelpRow := Usage("-h", "", "Print this help text and exit", "")

  /** The greatest length in `s`, or 0 for none, as a running maximum from 0 computes it: no length exceeds it. */
  function MaxLen(s: seq<string>): (m: nat)
    ensures forall i :: 0 <= i < |s| ==> |s[i]| <= m
  {
    if s == [] then 0
    else
      var m := MaxLen(s[..|s| - 1]);
      if |s[|s| - 1]| > m then |s[|s| - 1]| else m
  }

  function Names(flags: seq<Flag>): seq<string> {
    seq(|flags|, i requires 0 <= i < |flags| => flags[i].name)
  }

  /** The type word of a flag's usage. */
  function TypeOf(f: Flag): string {
    GetTypeAndUsage(f.usage).0
  }

  function Types(flags: seq<Flag>): seq<string> {
    seq(|flags|, i requires 0 <= i < |flags| => TypeOf(flags[i]))
  }

  /** Every padding count of `formatOptions` is non-negative, so `strings.Repeat` does not panic. */
  predicate Fits(options: seq<Usage>, nPad: nat, tPad: nat) {
    forall i :: 0 <= i < |options| ==> |options[i].name| <= nPad + 2 && |options[i].flagType| <= tPad + 3
  }

  /** One line of the option table: indent, name, padding, type, padding, usage, default. */
  function Line(o: Usage, nPad: nat, tPad: nat): (l: string)
    requires |o.name| <= nPad + 2 && |o.flagType| <= tPad + 3
    ensures |l| - |o.usage| - |o.defValue| == nPad + tPad + 8
  {
    Strings.Repeat(' ', 3) + o.name + Strings.Repeat(' ', nPad + 2 - |o.name|)
      + o.flagType + Strings.Repeat(' ', tPad + 3 - |o.flagType|) + o.usage + o.defValue
  }

  function Lines(options: seq<Usage>, nPad: nat, tPad: nat): (r: seq<string>)
    requires Fits(options, nPad, tPad)
    ensures |r| == |options|
  {
    seq(|options|, i requires 0 <= i < |options| && Fits(options, nPad, tPad) => Line(options[i], nPad, tPad))
  }

  /** `strings.Join(lines, "\n")`. */
  function Join(lines: seq<string>): string {
    if lines == [] then ""
    else if |lines| == 1 then lines[0]
    else Join(lines[..|lines| - 1]) + "\n" + lines[|lines| - 1]
  }

  /** Every line followed by a newline, as the loop of `formatOptions` accumulates them. */
  function Terminated(lines: seq<string>): string {
    if lines == [] then "" else Terminated(lines[..|lines| - 1]) + lines[|lines| - 1] + "\n"
  }

  /** `strings.TrimSuffix(s, "\n")`. */
  function TrimNewline(s: string): string {
    if |s| > 0 && s[|s| - 1] == '\n' then s[..|s| - 1] else s
  }

  // ---------------------------------------------------------------------------
  // Operations

  /** The loop of `getOptions`: a row per flag in order, the -h row last, and the two column widths. */
  method CollectOptions(flags: seq<Flag>, hidden: seq<string>) returns (opts: seq<Usage>, nPad: nat, tPad: nat)
    ensures opts == Options(flags, hidden) + [HelpRow]
    ensures nPad == MaxLen(Names(flags)) && tPad == MaxLen(Types(flags))
  {
    opts := [];
    nPad, tPad := 0, 0;
    ghost var want, names, types := Options(flags, hidden), Names(flags), Types(flags);
    var i := 0;
    while i < |flags|
      invariant 0 <= i <= |flags|
      invariant opts == want[..i]
      invariant nPad == MaxLen(names[..i]) && tPad == MaxLen(types[..i])
    {
      var f := flags[i];
      var o := ToUsage(f, hidden);
      var flagType := o.flagType;
      CollectStep(flags, hidden, i);
      opts := opts + [o];
      if |f.name| > nPad {
        nPad := |f.name|;
      }
      if |flagType| > tPad {
        tPad := |flagType|;
      }
      i := i + 1;
    }
    assert names[..i] == names && types[..i] == types && want[..i] == want;
    opts := opts + [HelpRow];
  }

  /** `formatOptions`: the padded lines in order, joined by newlines, with no newline at the end. */
  method FormatOptions(options: seq<Usage>, nPad: nat, tPad: nat) returns (text: string)
    requires Fits(options, nPad, tPad)
    ensures text == Join(Lines(options, nPad, tPad))
  {
    var usage := "";
    var i := 0;
    ghost var lines := Lines(options, nPad, tPad);
    while i < |options|
      invariant 0 <= i <= |options|
      invariant usage == Terminated(lines[..i])
    {
      var o := options[i];
      var t := nPad + 2 - |o.name|;
      var u := tPad + 3 - |o.flagType|;
      var line := Strings.Repeat(' ', 3) + o.name + Strings.Repeat(' ', t) + o.flagType
                  + Strings.Repeat(' ', u) + o.usage + o.defValue;
      assert line == lines[i];
      assert lines[..i + 1][..i] == lines[..i];
      usage := usage + line + "\n";
      i := i + 1;
    }
    assert lines[..i] == lines;
    TerminatedIsJoined(lines);
    text := TrimNewline(usage);
  }

  /** `getOptions`: the option table for the flags in help order. */
  method GetOptions(flags: seq<Flag>, hidden: seq<string>) returns (text: string)
    ensures var opts := Options(flags, hidden) + [HelpRow];
      var nPad, tPad := MaxLen(Names(flags)), MaxLen(Types(flags));
      && Fits(opts, nPad, tPad)
      && text == Join(Lines(opts, nPad, tPad))
  {
    var opts, nPad, tPad := CollectOptions(flags, hidden);
    CollectedOptionsFit(flags, hidden, opts);
    text := FormatOptions(opts, nPad, tPad);
  }

  // ---------------------------------------------------------------------------
  // Properties

  lemma MaxLenStep(s: seq<string>, i: nat)
    requires i < |s|
    ensures MaxLen(s[..i + 1]) == if |s[i]| > MaxLen(s[..i]) then |s[i]| else MaxLen(s[..i])
  {
    assert s[..i + 1][..i] == s[..i];
  }

  /** One more flag adds its row to the rows so far and may widen either column. */
  lemma CollectStep(flags: seq<Flag>, hidden: seq<string>, i: nat)
    requires i < |flags|
    ensures Options(flags, hidden)[..i + 1] == Options(flags, hidden)[..i] + [ToUsage(flags[i], hidden)]
    ensures var n, m := |flags[i].name|, MaxLen(Names(flags)[..i]);
      MaxLen(Names(flags)[..i + 1]) == if n > m then n else m
    ensures var t, m := |TypeOf(flags[i])|, MaxLen(Types(flags)[..i]);
      MaxLen(Types(flags)[..i + 1]) == if t > m then t else m
  {
    var want := Options(flags, hidden);
    assert want[..i + 1] == want[..i] + [want[i]];
    MaxLenStep(Names(flags), i);
    MaxLenStep(Types(flags), i);
  }

  /** `MaxLen` is the least bound of the lengths: every length is at most it, and it is 0 or one of them. */
  lemma {:induction false} MaxLenIsMax(s: seq<string>)
    ensures forall i :: 0 <= i < |s| ==> |s[i]| <= MaxLen(s)
    ensures MaxLen(s) == 0 || exists i :: 0 <= i < |s| && |s[i]| == MaxLen(s)
  {
    if s != [] {
      var init := s[..|s| - 1];
      MaxLenIsMax(init);
      assert forall i :: 0 <= i < |init| ==> s[i] == init[i];
      if MaxLen(init) != 0 && MaxLen(s) == MaxLen(init) {
        var i :| 0 <= i < |init| && |init[i]| == MaxLen(init);
        assert |s[i]| == MaxLen(s);
      }
    }
  }

  /**
   * With the widths `getOptions` computes, every padding count is at least 1
   * on a flag row (the name gains a "-" the width did not count), the -h row
   * fits, and the type column gets at least three spaces on every row.
   */
  lemma CollectedOptionsFit(flags: seq<Flag>, hidden: seq<string>, opts: seq<Usage>)
    requires opts == Options(flags, hidden) + [HelpRow]
    ensures var nPad, tPad := MaxLen(Names(flags)), MaxLen(Types(flags));
      && Fits(opts, nPad, tPad)
      && (forall i :: 0 <= i < |flags| ==> nPad + 2 - |opts[i].name| >= 1 && tPad + 3 - |opts[i].flagType| >= 3)
      && (MaxLen(Names(flags)) >= 1 ==> nPad + 2 - |HelpRow.name| >= 1)
  {
    MaxLenIsMax(Names(flags));
    MaxLenIsMax(Types(flags));
    forall i | 0 <= i < |flags|
      ensures |opts[i].name| == |flags[i].name| + 1 && |flags[i].name| <= MaxLen(Names(flags))
      ensures |opts[i].flagType| <= MaxLen(Types(flags))
    {
      assert Names(flags)[i] == flags[i].name;
      assert Types(flags)[i] == opts[i].flagType;
    }
  }

  /** Each line ending in a newline is the joined text plus one final newline. */
  lemma {:induction false} TerminatedIsJoined(lines: seq<string>)
    ensures lines != [] ==> Terminated(lines) == Join(lines) + "\n"
    ensures TrimNewline(Terminated(lines)) == Join(lines)
  {
    if lines != [] {
      var init, last := lines[..|lines| - 1], lines[|lines| - 1];
      var body := Terminated(init) + last;
      if |lines| > 1 {
        TerminatedIsJoined(init);
        assert body == Join(init) + "\n" + last;
      } else {
        assert body == last;
      }
      var t := Terminated(lines);
      assert t == body + "\n";
      assert t[..|t| - 1] == body;
    }
  }

  /** Lines free of newlines are joined with exactly one newline fewer than there are lines. */
  lemma {:induction false} JoinCountsNewlines(lines: seq<string>)
    requires lines != []
    requires forall i :: 0 <= i < |lines| ==> '\n' !in lines[i]
    ensures multiset(Join(lines))['\n'] == |lines| - 1
  {
    if |lines| > 1 {
      JoinCountsNewlines(lines[..|lines| - 1]);
      assert '\n' !in lines[|lines| - 1];
    } else {
      assert '\n' !in lines[0];
    }
  }

  /**
   * The columns line up: the name starts at column 3, the type at column
   * nPad + 5 and the usage at column nPad + tPad + 8, on every line.
   */
  lemma LineColumns(o: Usage, nPad: nat, tPad: nat)
    requires |o.name| <= nPad + 2 && |o.flagType| <= tPad + 3
    ensures var l := Line(o, nPad, tPad);
      && |l| == nPad + tPad + 8 + |o.usage| + |o.defValue|
      && l[..3] == "   "
      && l[3..3 + |o.name|] == o.name
      && l[nPad + 5..nPad + 5 + |o.flagType|] == o.flagType
      && l[nPad + tPad + 8..] == o.usage + o.defValue
  {
    var l := Line(o, nPad, tPad);
    var a := Strings.Repeat(' ', 3) + o.name + Strings.Repeat(' ', nPad + 2 - |o.name|);
    var b := a + o.flagType + Strings.Repeat(' ', tPad + 3 - |o.flagType|);
    assert l == b + (o.usage + o.defValue);
    assert b[..|a|] == a;
    assert a[..3] == "   ";
  }

  lemma IndexOfAt(s: string, c: char, k: nat)
    requires k < |s| && s[k] == c && c !in s[..k]
    ensures Strings.IndexOf(s, c) == k
  {
    Strings.IndexOfFirst(s, c);
    assert c in s[..k + 1];
  }

  /** The first two occurrences of `d` in pre + d + word + d + post are the two marks. */
  lemma MarksFound(pre: string, word: string, post: string, d: char)
    requires d !in pre && d !in word
    ensures var usage := pre + [d] + word + [d] + post;
      && Strings.IndexOf(usage, d) == |pre|
      && Strings.IndexOf(usage[|pre| + 1..], d) == |word|
      && usage[|pre| + 1..][..|word|] == word
  {
    var usage := pre + [d] + word + [d] + post;
    assert usage[..|pre|] == pre;
    IndexOfAt(usage, d, |pre|);
    var ns := usage[|pre| + 1..];
    assert ns == word + [d] + post;
    assert ns[..|word|] == word;
    IndexOfAt(ns, d, |word|);
  }

  lemma MarkedNested(pre: string, word: string, post: string, d: char)
    ensures pre + [d] + word + [d] + post == pre + ([d] + (word + ([d] + post)))
  {
  }

  /** Dropping every backtick from pre + ` + word + ` + post. */
  lemma BackticksRemoved(pre: string, word: string, post: string)
    requires Backtick !in pre && Backtick !in word
    ensures Strings.RemoveAll(pre + ([Backtick] + (word + ([Backtick] + post))), [Backtick])
         == pre + (word + Strings.RemoveAll(post, [Backtick]))
  {
    var x := [Backtick] + post;
    Strings.RemoveAllFront([Backtick], post);
    var y := word + x;
    Strings.RemoveAllAfterPrefix(word, x, [Backtick]);
    var z := [Backtick] + y;
    Strings.RemoveAllFront([Backtick], y);
    Strings.RemoveAllAfterPrefix(pre, z, [Backtick]);
  }

  /** Dropping the quoted word from pre + ' + word + ' + post. */
  lemma QuotedWordRemoved(pre: string, word: string, post: string)
    requires Quote !in pre && Quote !in post
    ensures Strings.RemoveAll(pre + [Quote] + word + [Quote] + post, [Quote] + word + [Quote]) == pre + post
  {
    var p := [Quote] + word + [Quote];
    assert pre + [Quote] + word + [Quote] + post == pre + (p + post);
    Strings.RemoveAllAfterPrefix(pre, p + post, p);
    Strings.RemoveAllFront(p, post);
    Strings.RemoveAllAbsent(post, p);
  }

  /**
   * Backtick case: in a usage without single quotes whose first two
   * backticks enclose `word`, the type is the lower-cased word and the usage
   * is the text with every backtick dropped, trimmed.
   */
  lemma BacktickMarked(pre: string, word: string, post: string)
    requires Backtick !in pre && Backtick !in word
    requires Quote !in pre && Quote !in word && Quote !in post
    ensures GetTypeAndUsage(pre + [Backtick] + word + [Backtick] + post)
         == (Strings.Lower(word), Strings.TrimSpace(pre + (word + Strings.RemoveAll(post, [Backtick]))))
  {
    var usage := pre + [Backtick] + word + [Backtick] + post;
    assert Quote !in usage;
    assert Delimiter(usage) == Backtick;
    MarksFound(pre, word, post, Backtick);
    BackticksRemoved(pre, word, post);
    MarkedNested(pre, word, post, Backtick);
    var ns := usage[|pre| + 1..];
    assert GetTypeAndUsage(usage) == (Strings.Lower(ns[..|word|]), Strings.TrimSpace(Strings.RemoveAll(usage, [Backtick])));
  }

  /**
   * Single-quote case: when the only single quotes enclose `word`, the type
   * is the lower-cased word and the usage is the text around the quoted
   * word, trimmed.
   */
  lemma QuoteMarked(pre: string, word: string, post: string)
    requires Quote !in pre && Quote !in word && Quote !in post
    ensures GetTypeAndUsage(pre + [Quote] + word + [Quote] + post)
         == (Strings.Lower(word), Strings.TrimSpace(pre + post))
  {
    var usage := pre + [Quote] + word + [Quote] + post;
    assert usage[|pre|] == Quote;
    MarksFound(pre, word, post, Quote);
    QuotedWordRemoved(pre, word, post);
  }

  lemma TwoOccurrences(s: string, c: char, i: nat, j: nat)
    requires i < |s| && s[i] == c
    requires j < |s[i + 1..]| && s[i + 1..][j] == c
    ensures multiset(s)[c] >= 2
  {
    var rest := s[i + 1..];
    assert rest == rest[..j] + [c] + rest[j + 1..];
    assert s == s[..i] + [c] + rest;
  }

  /** With fewer than two delimiters there is no type word and the usage is returned as it is. */
  lemma NoTypeWithoutPair(usage: string)
    ensures multiset(usage)[Delimiter(usage)] < 2 ==> GetTypeAndUsage(usage) == ("", usage)
  {
    var d := Delimiter(usage);
    var s := Strings.IndexOf(usage, d);
    if s != -1 {
      var ns := usage[s + 1..];
      var e := Strings.IndexOf(ns, d);
      Strings.IndexOfFirst(usage, d);
      Strings.IndexOfFirst(ns, d);
      if e != -1 {
        TwoOccurrences(usage, d, s, e);
      }
    }
  }
}
