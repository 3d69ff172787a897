/**
 * How `Parser.loadArgumentsFromFile` turns the lines of an argument
 * file into tokens, and how `Parser.parse` expands command-line tokens
 * that hold commas.
 */
module ArgumentFile {
  import opened Text

  /** The quote pass of a line: every odd piece of `line.split('"')` (the text
      inside a pair of quotes) has its spaces turned into tab markers. */
  function MarkQuoted(quotes: seq<string>): (r: seq<string>)
    ensures |r| == |quotes|
    ensures forall i :: 0 <= i < |quotes| ==>
              r[i] == (if i % 2 == 1 then Replace(quotes[i], ' ', '\t') else quotes[i])
  {
    seq(|quotes|, i requires 0 <= i < |quotes| =>
      if i % 2 == 1 then Replace(quotes[i], ' ', '\t') else quotes[i])
  }

  /** A stripped, non-blank line after tabs and commas became spaces and the
      quote pass removed the quote characters. */
  function PrepareLine(line: string): string {
    var l := Replace(Replace(line, '\t', ' '), ',', ' ');
    var quotes := Split(l, '"');
    if |quotes| > 1 then Concat(MarkQuoted(quotes)) else l
  }

  /** A space-separated piece with its markers turned back into spaces, stripped. */
  function Unmark(piece: string): (a: string)
    ensures '\t' !in a
    ensures a == [] <==> forall i :: 0 <= i < |piece| ==> IsSpace(piece[i])
  {
    assert forall i :: 0 <= i < |piece| ==> (IsSpace(Replace(piece, '\t', ' ')[i]) <==> IsSpace(piece[i]));
    var a := Strip(Replace(piece, '\t', ' '));
    assert '\t' !in a by {
      if '\t' in a {
        StripChars(Replace(piece, '\t', ' '), '\t');
        ReplaceRemoves(piece, '\t', ' ');
      }
    }
    a
  }

  /** The inner loop: each piece unmarked, kept when not empty. */
  function KeepArguments(pieces: seq<string>): (r: seq<string>)
    ensures forall i :: 0 <= i < |r| ==> r[i] != [] && '\t' !in r[i]
  {
    if pieces == [] then []
    else
      Kept(pieces[0]) + KeepArguments(pieces[1..])
  }

  /** A character of a kept argument other than a space comes from one of the pieces. */
  lemma {:induction false} KeepArgumentsChars(pieces: seq<string>, i: nat, c: char)
    requires i < |KeepArguments(pieces)| && c in KeepArguments(pieces)[i] && c != ' '
    ensures exists j :: 0 <= j < |pieces| && c in pieces[j]
  {
    var a := Unmark(pieces[0]);
    var rest := KeepArguments(pieces[1..]);
    if a != [] && i == 0 {
      assert c in a;
      StripChars(Replace(pieces[0], '\t', ' '), c);
      ReplaceChars(pieces[0], '\t', ' ', c);
    } else {
      var head := if a != [] then [a] else [];
      var k := i - |head|;
      assert KeepArguments(pieces) == head + rest;
      assert KeepArguments(pieces)[i] == rest[k];
      KeepArgumentsChars(pieces[1..], k, c);
      var j :| 0 <= j < |pieces[1..]| && c in pieces[1..][j];
      assert c in pieces[j + 1];
    }
  }

  /** The tokens one line of an argument file contributes. */
  function LineArguments(line: string): seq<string> {
    var l := Strip(line);
    if l == [] then [] else KeepArguments(Split(PrepareLine(l), ' '))
  }

  /** The tokens an argument file contributes, line after line. */
  function FileArguments(lines: seq<string>): seq<string> {
    LinesArguments(lines, |lines|)
  }

  /** The tokens of the first `n` lines. */
  function LinesArguments(lines: seq<string>, n: nat): seq<string>
    requires n <= |lines|
  {
    if n == 0 then [] else LinesArguments(lines, n - 1) + LineArguments(lines[n - 1])
  }

  /** The non-empty pieces, in order (Python's `filter(None, ...)`). */
  function NonEmpty(ps: seq<string>): (r: seq<string>)
    ensures forall i :: 0 <= i < |r| ==> r[i] != [] && exists j :: 0 <= j < |ps| && r[i] == ps[j]
  {
    if ps == [] then []
    else
      var rest := NonEmpty(ps[1..]);
      assert forall i :: 0 <= i < |rest| ==> exists j :: 0 <= j < |ps| && rest[i] == ps[j] by {
        forall i | 0 <= i < |rest| ensures exists j :: 0 <= j < |ps| && rest[i] == ps[j] {
          var j :| 0 <= j < |ps[1..]| && rest[i] == ps[1..][j];
          assert rest[i] == ps[j + 1];
        }
      }
      (if ps[0] != [] then [ps[0]] else []) + rest
  }

  /** The filter works piece by piece. */
  lemma {:induction false} NonEmptyAppend(ps: seq<string>, qs: seq<string>)
    ensures NonEmpty(ps + qs) == NonEmpty(ps) + NonEmpty(qs)
  {
    if ps != [] {
      assert (ps + qs)[1..] == ps[1..] + qs;
      NonEmptyAppend(ps[1..], qs);
    } else {
      assert ps + qs == qs;
    }
  }

  /** One piece is kept exactly when it is not empty. */
  lemma NonEmptySingle(p: string)
    ensures NonEmpty([p]) == if p == [] then [] else [p]
  {
    assert [p][1..] == [];
  }

  /** Pieces that are all non-empty are all kept, in order. */
  lemma {:induction false} NonEmptyKeeps(ps: seq<string>)
    requires forall i :: 0 <= i < |ps| ==> ps[i] != []
    ensures NonEmpty(ps) == ps
  {
    if ps != [] {
      assert ps[0] != [];
      NonEmptyKeeps(ps[1..]);
      assert NonEmpty(ps) == [ps[0]] + NonEmpty(ps[1..]);
      assert ps == [ps[0]] + ps[1..];
    }
  }

  /** One command-line token as `parse` appends it. */
  function ExpandToken(arg: string): seq<string> {
    if ',' in arg then NonEmpty(Split(Replace(arg, ',', ' '), ' ')) else [arg]
  }

  /** The token list `parse` builds from its arguments. */
  function ExpandCommas(args: seq<string>): seq<string> {
    if args == [] then [] else ExpandToken(args[0]) + ExpandCommas(args[1..])
  }

  /** A token made of comma-separated pieces without spaces expands into its
      non-empty pieces, in order: all of them when none is empty. */
  lemma ExpandTokenJoin(ps: seq<string>)
    requires |ps| >= 2
    requires forall i :: 0 <= i < |ps| ==> ',' !in ps[i] && ' ' !in ps[i]
    ensures ExpandToken(Join(ps, ',')) == NonEmpty(ps)
    ensures (forall i :: 0 <= i < |ps| ==> ps[i] != []) ==> ExpandToken(Join(ps, ',')) == ps
  {
    var arg := Join(ps, ',');
    assert arg == ps[0] + [','] + Join(ps[1..], ',');
    assert arg[|ps[0]|] == ',';
    ReplaceJoin(ps, ',', ' ');
    SplitJoin(ps, ' ');
    if forall i :: 0 <= i < |ps| ==> ps[i] != [] {
      NonEmptyKeeps(ps);
    }
  }

  /** A list expands token by token. */
  lemma {:induction false} ExpandCommasAppend(args: seq<string>, more: seq<string>)
    ensures ExpandCommas(args + more) == ExpandCommas(args) + ExpandCommas(more)
  {
    if args != [] {
      assert (args + more)[1..] == args[1..] + more;
      ExpandCommasAppend(args[1..], more);
    } else {
      assert args + more == more;
    }
  }

  /** A token without a comma survives the expansion as it is. */
  lemma {:induction false} ExpandCommasKeeps(args: seq<string>, i: nat)
    requires i < |args| && ',' !in args[i]
    ensures args[i] in ExpandCommas(args)
  {
    if i == 0 {
      assert ExpandCommas(args) == [args[0]] + ExpandCommas(args[1..]);
    } else {
      ExpandCommasKeeps(args[1..], i - 1);
    }
  }

  /** The quote pass: text inside quotes is left without spaces, text outside
      them unchanged, and restoring the markers gives every piece back when the
      line held no tab (the tab pass before it sees to that). */
  lemma MarkQuotedRestores(quotes: seq<string>)
    requires forall i :: 0 <= i < |quotes| ==> '\t' !in quotes[i]
    ensures forall i :: 0 <= i < |quotes| ==> Replace(MarkQuoted(quotes)[i], '\t', ' ') == quotes[i]
    ensures forall i :: 0 <= i < |quotes| && i % 2 == 1 ==> ' ' !in MarkQuoted(quotes)[i]
    ensures forall i :: 0 <= i < |quotes| && i % 2 == 0 ==> MarkQuoted(quotes)[i] == quotes[i]
  {
    forall i | 0 <= i < |quotes|
      ensures Replace(MarkQuoted(quotes)[i], '\t', ' ') == quotes[i]
      ensures i % 2 == 1 ==> ' ' !in MarkQuoted(quotes)[i]
    {
      if i % 2 == 1 {
        ReplaceRoundTrip(quotes[i], ' ', '\t');
        ReplaceRemoves(quotes[i], ' ', '\t');
      } else {
        ReplaceAbsent(quotes[i], '\t', ' ');
      }
    }
  }

  /** A marked token is read back as the token: markers become spaces again
      and, its ends not being blank, nothing is stripped. */
  lemma UnmarkMarked(q: string)
    requires '\t' !in q
    requires q == [] || (!IsSpace(q[0]) && !IsSpace(q[|q| - 1]))
    ensures Unmark(Replace(q, ' ', '\t')) == q
  {
    ReplaceRoundTrip(q, ' ', '\t');
    StripUnpadded(q);
  }

  /** Filtering works piece by piece. */
  lemma {:induction false} KeepArgumentsAppend(ps: seq<string>, qs: seq<string>)
    ensures KeepArguments(ps + qs) == KeepArguments(ps) + KeepArguments(qs)
  {
    if ps != [] {
      assert (ps + qs)[1..] == ps[1..] + qs;
      KeepArgumentsAppend(ps[1..], qs);
    } else {
      assert ps + qs == qs;
    }
  }

  /** The quote pass leaves neither quote characters nor commas in a line. */
  lemma {:induction false} PrepareLineChars(l: string, c: char)
    requires c in PrepareLine(l) && c != '\t'
    ensures c != '"' && c != ','
  {
    var l' := Replace(Replace(l, '\t', ' '), ',', ' ');
    var quotes := Split(l', '"');
    if |quotes| > 1 {
      ConcatChars(MarkQuoted(quotes), c);
      var k :| 0 <= k < |quotes| && c in MarkQuoted(quotes)[k];
      if k % 2 == 1 {
        ReplaceChars(quotes[k], ' ', '\t', c);
      }
      assert c in quotes[k];
      SplitChars(l', '"', k, c);
    }
  }

  /** An argument-file line yields no tokens when blank, and otherwise only
      non-empty tokens free of tabs, commas and quote characters. */
  lemma LineArgumentsShape(line: string)
    ensures (forall i :: 0 <= i < |line| ==> IsSpace(line[i])) ==> LineArguments(line) == []
    ensures forall t :: t in LineArguments(line) ==> t != [] && '\t' !in t && ',' !in t && '"' !in t
  {
    var l := Strip(line);
    if l != [] {
      var pieces := Split(PrepareLine(l), ' ');
      forall t | t in LineArguments(line)
        ensures ',' !in t && '"' !in t
      {
        var i :| 0 <= i < |KeepArguments(pieces)| && KeepArguments(pieces)[i] == t;
        if ',' in t {
          KeepArgumentsChars(pieces, i, ',');
          var j :| 0 <= j < |pieces| && ',' in pieces[j];
          SplitChars(PrepareLine(l), ' ', j, ',');
          PrepareLineChars(l, ',');
        }
        if '"' in t {
          KeepArgumentsChars(pieces, i, '"');
          var j :| 0 <= j < |pieces| && '"' in pieces[j];
          SplitChars(PrepareLine(l), ' ', j, '"');
          PrepareLineChars(l, '"');
        }
      }
    }
  }

  /** A line whose ends are not blank is read without stripping anything. */
  lemma LineArgumentsUnpadded(line: string)
    requires line != [] && !IsSpace(line[0]) && !IsSpace(line[|line| - 1])
    ensures LineArguments(line) == KeepArguments(Split(PrepareLine(line), ' '))
  {
    StripUnpadded(line);
  }

  /** The quote pass on `"q"` removes the quotes and marks the spaces of `q`. */
  lemma QuotedPrepare(q: string)
    requires '"' !in q && ',' !in q && '\t' !in q
    ensures PrepareLine("\"" + q + "\"") == Replace(q, ' ', '\t')
  {
    var line := "\"" + q + "\"";
    var marked := Replace(q, ' ', '\t');
    assert forall i :: 1 <= i < |line| - 1 ==> line[i] == q[i - 1];
    assert '\t' !in line && ',' !in line;
    ReplaceAbsent(line, '\t', ' ');
    ReplaceAbsent(line, ',', ' ');
    var parts := ["", q, ""];
    assert Join(parts, '"') == line by {
      assert Join(parts[2..], '"') == "";
      assert Join(parts[1..], '"') == q + "\"";
    }
    SplitJoin(parts, '"');
    assert MarkQuoted(parts) == ["", marked, ""];
    assert Concat(["", marked, ""]) == marked by {
      assert Concat(["", marked, ""][1..]) == marked + Concat([""]);
    }
  }

  /** A quoted token with its spaces marked is one piece, read back as the token. */
  lemma MarkedKeep(q: string)
    requires q != [] && !IsSpace(q[0]) && !IsSpace(q[|q| - 1]) && '\t' !in q
    ensures KeepArguments(Split(Replace(q, ' ', '\t'), ' ')) == [q]
  {
    var marked := Replace(q, ' ', '\t');
    assert Split(marked, ' ') == [marked];
    assert Replace(marked, '\t', ' ') == q;
    StripUnpadded(q);
    assert KeepArguments([marked][1..]) == [];
  }

  /** A double-quoted span is one token: its inner spaces are kept and its quote
      characters dropped. */
  lemma QuotedArgument(q: string)
    requires q != [] && !IsSpace(q[0]) && !IsSpace(q[|q| - 1])
    requires '"' !in q && ',' !in q && '\t' !in q
    ensures LineArguments("\"" + q + "\"") == [q]
  {
    LineArgumentsUnpadded("\"" + q + "\"");
    QuotedPrepare(q);
    MarkedKeep(q);
  }

  /** A token `Join` can place on a line and read back unchanged. */
  predicate PlainToken(t: string) {
    t != [] && forall i :: 0 <= i < |t| ==> !IsSpace(t[i]) && t[i] != ',' && t[i] != '"'
  }

  /** Filtering keeps a sequence of plain tokens as it is. */
  lemma {:induction false} KeepPlain(ts: seq<string>)
    requires forall k :: 0 <= k < |ts| ==> PlainToken(ts[k])
    ensures KeepArguments(ts) == ts
  {
    if ts != [] {
      assert Replace(ts[0], '\t', ' ') == ts[0];
      StripUnpadded(ts[0]);
      KeepPlain(ts[1..]);
    }
  }

  /** A line of plain tokens passes the quote pass unchanged. */
  lemma PlainPrepare(ts: seq<string>)
    requires |ts| >= 1
    requires forall k :: 0 <= k < |ts| ==> PlainToken(ts[k])
    ensures PrepareLine(Join(ts, ' ')) == Join(ts, ' ')
  {
    var line := Join(ts, ' ');
    forall i | 0 <= i < |line|
      ensures line[i] != '\t' && line[i] != ',' && line[i] != '"'
    {
      JoinChars(ts, ' ', line[i]);
    }
    ReplaceAbsent(line, '\t', ' ');
    ReplaceAbsent(line, ',', ' ');
  }

  /** Tokens written on one line separated by spaces are read back as the same tokens. */
  lemma PlainLineRoundTrip(ts: seq<string>)
    requires |ts| >= 1
    requires forall k :: 0 <= k < |ts| ==> PlainToken(ts[k])
    ensures LineArguments(Join(ts, ' ')) == ts
  {
    var line := Join(ts, ' ');
    JoinLast(ts, ' ');
    assert line[0] == ts[0][0];
    LineArgumentsUnpadded(line);
    PlainPrepare(ts);
    SplitJoin(ts, ' ');
    KeepPlain(ts);
  }

  /** The characters that separate tokens on an argument-file line. */
  predicate IsSeparator(c: char) {
    c == ' ' || c == '\t' || c == ','
  }

  /** Tokens written on one line, the gap after `ts[k]` being `seps[k]`. */
  function Separated(ts: seq<string>, seps: seq<char>): string
    requires |ts| >= 1 && |seps| == |ts| - 1
  {
    if |ts| == 1 then ts[0] else ts[0] + [seps[0]] + Separated(ts[1..], seps[1..])
  }

  /** The tab and comma passes of a line, over two pieces. */
  lemma BlankAppend(x: string, y: string)
    ensures Replace(Replace(x + y, '\t', ' '), ',', ' ')
         == Replace(Replace(x, '\t', ' '), ',', ' ') + Replace(Replace(y, '\t', ' '), ',', ' ')
  {
    ReplaceAppend(x, y, '\t', ' ');
    ReplaceAppend(Replace(x, '\t', ' '), Replace(y, '\t', ' '), ',', ' ');
  }

  /** A plain token has neither quote characters, tabs nor commas. */
  lemma PlainChars(t: string)
    requires PlainToken(t)
    ensures '"' !in t && '\t' !in t && ',' !in t && ' ' !in t
  {
    forall i | 0 <= i < |t| ensures t[i] != '"' && t[i] != '\t' && t[i] != ',' && t[i] != ' ' {
    }
  }

  /** A line of plain tokens joined by spaces holds no quote, tab or comma. */
  lemma PlainJoinChars(ts: seq<string>)
    requires |ts| >= 1
    requires forall k :: 0 <= k < |ts| ==> PlainToken(ts[k])
    ensures '"' !in Join(ts, ' ') && '\t' !in Join(ts, ' ') && ',' !in Join(ts, ' ')
  {
    var line := Join(ts, ' ');
    forall ch | ch in line ensures ch != '"' && ch != '\t' && ch != ',' {
      JoinChars(ts, ' ', ch);
      if ch != ' ' {
        var j :| 0 <= j < |ts| && ch in ts[j];
        PlainChars(ts[j]);
      }
    }
  }

  /** The tab and comma passes turn every separator into a space. */
  lemma {:induction false} SeparatorsBecomeSpaces(ts: seq<string>, seps: seq<char>)
    requires |ts| >= 1 && |seps| == |ts| - 1
    requires forall k :: 0 <= k < |ts| ==> PlainToken(ts[k])
    requires forall k :: 0 <= k < |seps| ==> IsSeparator(seps[k])
    ensures Replace(Replace(Separated(ts, seps), '\t', ' '), ',', ' ') == Join(ts, ' ')
  {
    PlainChars(ts[0]);
    ReplaceAbsent(ts[0], '\t', ' ');
    ReplaceAbsent(ts[0], ',', ' ');
    if |ts| > 1 {
      var rest := Separated(ts[1..], seps[1..]);
      SeparatorsBecomeSpaces(ts[1..], seps[1..]);
      BlankAppend(ts[0] + [seps[0]], rest);
      BlankAppend(ts[0], [seps[0]]);
      assert Replace(Replace([seps[0]], '\t', ' '), ',', ' ') == [' '];
    }
  }

  /** The first character of a join is that of its first piece. */
  lemma JoinFirst(ps: seq<string>, c: char)
    requires |ps| >= 1 && ps[0] != []
    ensures Join(ps, c) != [] && Join(ps, c)[0] == ps[0][0]
  {
  }

  /** Plain tokens separated by spaces, tabs or commas, one separator between
      two tokens, are read back exactly: tabs and commas separate like spaces. */
  lemma SeparatedLineRoundTrip(ts: seq<string>, seps: seq<char>)
    requires |ts| >= 1 && |seps| == |ts| - 1
    requires forall k :: 0 <= k < |ts| ==> PlainToken(ts[k])
    requires forall k :: 0 <= k < |seps| ==> IsSeparator(seps[k])
    ensures LineArguments(Separated(ts, seps)) == ts
  {
    var line := Separated(ts, seps);
    var j := Join(ts, ' ');
    SeparatorsBecomeSpaces(ts, seps);
    JoinFirst(ts, ' ');
    JoinLast(ts, ' ');
    var m := Replace(line, '\t', ' ');
    assert |line| == |j|;
    assert line[0] == j[0] by {
      assert Replace(m, ',', ' ')[0] == j[0];
    }
    assert line[|line| - 1] == j[|j| - 1] by {
      assert Replace(m, ',', ' ')[|j| - 1] == j[|j| - 1];
    }
    LineArgumentsUnpadded(line);
    PlainJoinChars(ts);
    ReplaceAbsent(j, '\t', ' ');
    ReplaceAbsent(j, ',', ' ');
    PlainPrepare(ts);
    assert PrepareLine(line) == PrepareLine(j);
    forall k | 0 <= k < |ts| ensures ' ' !in ts[k] {
      PlainChars(ts[k]);
    }
    SplitJoin(ts, ' ');
    KeepPlain(ts);
  }

  /** The text around a piece joined between two runs of tokens. */
  function Before(ps: seq<string>): string {
    if ps == [] then [] else Join(ps, ' ') + " "
  }

  function After(qs: seq<string>): string {
    if qs == [] then [] else " " + Join(qs, ' ')
  }

  /** The quote pass on a line with one quoted span: the quotes go and the
      span's spaces are marked. */
  lemma QuotePassOfSpan(a: string, q: string, b: string)
    requires '"' !in a && '"' !in q && '"' !in b
    requires '\t' !in a + ("\"" + q + "\"") + b && ',' !in a + ("\"" + q + "\"") + b
    ensures PrepareLine(a + ("\"" + q + "\"") + b) == a + Replace(q, ' ', '\t') + b
  {
    var line := a + ("\"" + q + "\"") + b;
    ReplaceAbsent(line, '\t', ' ');
    ReplaceAbsent(line, ',', ' ');
    SpanSplit(a, q, b);
    MarkSpan(a, q, b);
  }

  /** Splitting a line with one quoted span at the quotes. */
  lemma SpanSplit(a: string, q: string, b: string)
    requires '"' !in a && '"' !in q && '"' !in b
    ensures Split(a + ("\"" + q + "\"") + b, '"') == [a, q, b]
  {
    var parts := [a, q, b];
    assert Join(parts, '"') == a + ("\"" + q + "\"") + b by {
      assert Join(parts[2..], '"') == b;
      assert Join(parts[1..], '"') == q + "\"" + b;
    }
    SplitJoin(parts, '"');
  }

  /** The quote pass on the three pieces around one quoted span. */
  lemma MarkSpan(a: string, q: string, b: string)
    ensures Concat(MarkQuoted([a, q, b])) == a + Replace(q, ' ', '\t') + b
  {
    var marked := Replace(q, ' ', '\t');
    assert MarkQuoted([a, q, b]) == [a, marked, b];
    assert Concat([a, marked, b]) == a + marked + b by {
      assert Concat([b]) == b;
      assert Concat([marked, b]) == marked + b;
    }
  }

  /** A span joined between two runs of tokens. */
  lemma JoinSpan(ps: seq<string>, x: string, qs: seq<string>)
    ensures Join(ps + [x] + qs, ' ') == Before(ps) + x + After(qs)
  {
    JoinAround(ps, x, qs, ' ');
  }

  /** The text before and after a span among plain tokens has no quote, tab or comma. */
  lemma AroundChars(ps: seq<string>, qs: seq<string>)
    requires forall k :: 0 <= k < |ps| ==> PlainToken(ps[k])
    requires forall k :: 0 <= k < |qs| ==> PlainToken(qs[k])
    ensures '"' !in Before(ps) && '\t' !in Before(ps) && ',' !in Before(ps)
    ensures '"' !in After(qs) && '\t' !in After(qs) && ',' !in After(qs)
  {
    if ps != [] { PlainJoinChars(ps); }
    if qs != [] { PlainJoinChars(qs); }
  }

  /** No tab or comma in a line made of clean pieces. */
  lemma SpanChars(a: string, q: string, b: string, c: char)
    requires c != '"' && c !in a && c !in q && c !in b
    ensures c !in a + ("\"" + q + "\"") + b
  {
    var line := a + ("\"" + q + "\"") + b;
    forall i | 0 <= i < |line| ensures line[i] != c {
      if i < |a| { assert line[i] == a[i]; }
      else if i == |a| { }
      else if i <= |a| + |q| { assert line[i] == q[i - |a| - 1]; }
      else if i == |a| + |q| + 1 { }
      else { assert line[i] == b[i - |a| - |q| - 2]; }
    }
  }

  /** The quote pass on a line of plain tokens with one quoted span among
      them: the quotes go and the span's spaces are marked. */
  lemma QuotedLinePrepare(ps: seq<string>, q: string, qs: seq<string>)
    requires forall k :: 0 <= k < |ps| ==> PlainToken(ps[k])
    requires forall k :: 0 <= k < |qs| ==> PlainToken(qs[k])
    requires '"' !in q && ',' !in q && '\t' !in q
    ensures PrepareLine(Join(ps + ["\"" + q + "\""] + qs, ' ')) == Join(ps + [Replace(q, ' ', '\t')] + qs, ' ')
  {
    var a, b := Before(ps), After(qs);
    JoinSpan(ps, "\"" + q + "\"", qs);
    JoinSpan(ps, Replace(q, ' ', '\t'), qs);
    AroundChars(ps, qs);
    SpanChars(a, q, b, '\t');
    SpanChars(a, q, b, ',');
    QuotePassOfSpan(a, q, b);
  }

  /** A line of plain tokens with one quoted span neither starts nor ends blank. */
  lemma QuotedLineEnds(ps: seq<string>, q: string, qs: seq<string>)
    requires forall k :: 0 <= k < |ps| ==> PlainToken(ps[k])
    requires forall k :: 0 <= k < |qs| ==> PlainToken(qs[k])
    ensures var line := Join(ps + ["\"" + q + "\""] + qs, ' ');
      line != [] && !IsSpace(line[0]) && !IsSpace(line[|line| - 1])
  {
    var quoted := "\"" + q + "\"";
    var ts := ps + [quoted] + qs;
    assert ts[0] == if ps == [] then quoted else ps[0];
    assert ts[|ts| - 1] == if qs == [] then quoted else qs[|qs| - 1];
    JoinFirst(ts, ' ');
    JoinLast(ts, ' ');
  }

  /** One double-quoted span among plain tokens is one token, with its inner
      spaces kept and its quotes dropped; the tokens around it are kept as
      they are. */
  lemma QuotedAmongPlain(ps: seq<string>, q: string, qs: seq<string>)
    requires forall k :: 0 <= k < |ps| ==> PlainToken(ps[k])
    requires forall k :: 0 <= k < |qs| ==> PlainToken(qs[k])
    requires q != [] && !IsSpace(q[0]) && !IsSpace(q[|q| - 1])
    requires '"' !in q && ',' !in q && '\t' !in q
    ensures LineArguments(Join(ps + ["\"" + q + "\""] + qs, ' ')) == ps + [q] + qs
  {
    var line := Join(ps + ["\"" + q + "\""] + qs, ' ');
    var marked := Replace(q, ' ', '\t');
    QuotedLineEnds(ps, q, qs);
    LineArgumentsUnpadded(line);
    QuotedLinePrepare(ps, q, qs);
    var pieces := ps + [marked] + qs;
    ReplaceRemoves(q, ' ', '\t');
    forall k | 0 <= k < |pieces| ensures ' ' !in pieces[k] {
      if k < |ps| { PlainChars(ps[k]); }
      else if k > |ps| { PlainChars(qs[k - |ps| - 1]); }
    }
    SplitJoin(pieces, ' ');
    KeepArgumentsAppend(ps + [marked], qs);
    KeepArgumentsAppend(ps, [marked]);
    KeepPlain(ps);
    KeepPlain(qs);
    UnmarkMarked(q);
    assert KeepArguments([marked]) == [q] by {
      assert KeepArguments([marked][1..]) == [];
    }
  }

  /** After `parse` expands commas no token holds a comma, and a list without
      commas is kept as it is. */
  lemma {:induction false} ExpandCommasShape(args: seq<string>)
    ensures forall t :: t in ExpandCommas(args) ==> ',' !in t
    ensures (forall k :: 0 <= k < |args| ==> ',' !in args[k]) ==> ExpandCommas(args) == args
  {
    if args != [] {
      ExpandCommasShape(args[1..]);
      var a := args[0];
      if ',' in a {
        var ps := Split(Replace(a, ',', ' '), ' ');
        forall t | t in NonEmpty(ps) ensures ',' !in t {
          var i :| 0 <= i < |NonEmpty(ps)| && NonEmpty(ps)[i] == t;
          var j :| 0 <= j < |ps| && t == ps[j];
          if ',' in t {
            SplitChars(Replace(a, ',', ' '), ' ', j, ',');
          }
        }
      }
    }
  }

  /** What one piece adds to the tokens. */
  function Kept(piece: string): seq<string> {
    var a := Unmark(piece);
    if a != [] then [a] else []
  }

  /** `KeepArguments` on a suffix, one piece at a time. */
  lemma KeepArgumentsFrom(pieces: seq<string>, m: nat)
    requires m < |pieces|
    ensures KeepArguments(pieces[m..]) == Kept(pieces[m]) + KeepArguments(pieces[m + 1..])
  {
    assert pieces[m..][1..] == pieces[m + 1..];
  }

  /** `ExpandCommas` on a suffix, one token at a time. */
  lemma ExpandCommasFrom(args: seq<string>, k: nat)
    requires k < |args|
    ensures ExpandCommas(args[k..]) == ExpandToken(args[k]) + ExpandCommas(args[k + 1..])
  {
    assert args[k..][1..] == args[k + 1..];
  }
}
