/**
 * The Python string and `os.path` primitives the converter relies on,
 * written out with the semantics CPython gives them for the arguments
 * the converter passes (single-character separators, POSIX paths).
 */
module Text {

  /** The characters Python 2's `str.strip()` removes from a byte string:
      space, tab, newline, carriage return, vertical tab and form feed. */
  predicate IsSpace(c: char) {
    c == ' ' || c == '\t' || c == '\n' || c == '\r' || c == '\U{B}' || c == '\U{C}'
  }

  predicate StartsWith(s: string, prefix: string) {
    |prefix| <= |s| && s[..|prefix|] == prefix
  }

  /** `s.lstrip()` */
  function TrimLeft(s: string): (r: string)
    ensures |r| <= |s|
    ensures r == [] || !IsSpace(r[0])
    ensures forall i :: 0 <= i < |s| - |r| ==> IsSpace(s[i])
  {
    if s != [] && IsSpace(s[0]) then TrimLeft(s[1..]) else s
  }

  /** `s.rstrip()` */
  function TrimRight(s: string): (r: string)
    ensures |r| <= |s|
    ensures r == [] || !IsSpace(r[|r| - 1])
    ensures forall i :: |r| <= i < |s| ==> IsSpace(s[i])
  {
    if s != [] && IsSpace(s[|s| - 1]) then TrimRight(s[..|s| - 1]) else s
  }

  /** `lstrip` keeps a suffix. */
  lemma {:induction false} TrimLeftSuffix(s: string)
    ensures TrimLeft(s) == s[|s| - |TrimLeft(s)|..]
  {
    if s != [] && IsSpace(s[0]) {
      TrimLeftSuffix(s[1..]);
    }
  }

  /** `rstrip` keeps a prefix. */
  lemma {:induction false} TrimRightPrefix(s: string)
    ensures TrimRight(s) == s[..|TrimRight(s)|]
  {
    if s != [] && IsSpace(s[|s| - 1]) {
      TrimRightPrefix(s[..|s| - 1]);
    }
  }

  /** `s.strip()`: the result is empty exactly when `s` is all whitespace. */
  function Strip(s: string): (r: string)
    ensures r == [] <==> forall i :: 0 <= i < |s| ==> IsSpace(s[i])
    ensures r != [] ==> !IsSpace(r[0]) && !IsSpace(r[|r| - 1])
  {
    var l := TrimLeft(s);
    TrimLeftSuffix(s);
    TrimRightPrefix(l);
    TrimRight(l)
  }

  /** `strip` only removes characters. */
  lemma StripChars(s: string, c: char)
    requires c in Strip(s)
    ensures c in s
  {
    var l := TrimLeft(s);
    TrimLeftSuffix(s);
    TrimRightPrefix(l);
    assert c in TrimRight(l);
    assert c in l;
  }

  /** `strip` removes exactly the leading and the trailing whitespace: the
      result stands in `s` at `k`, after an all-whitespace prefix and before an
      all-whitespace suffix (maximal ones, since its own ends are not blank). */
  lemma StripParts(s: string) returns (k: nat)
    ensures k + |Strip(s)| <= |s| && s[k..k + |Strip(s)|] == Strip(s)
    ensures forall i :: 0 <= i < k ==> IsSpace(s[i])
    ensures forall i :: k + |Strip(s)| <= i < |s| ==> IsSpace(s[i])
  {
    var l := TrimLeft(s);
    TrimLeftSuffix(s);
    TrimRightPrefix(l);
    k := |s| - |l|;
    var r := TrimRight(l);
    assert Strip(s) == r;
    assert l == s[k..];
    assert r == l[..|r|];
    assert s[k..k + |r|] == r;
    forall i | k + |r| <= i < |s| ensures IsSpace(s[i]) {
      assert s[i] == l[i - k];
    }
  }

  lemma {:induction false} StripUnpadded(s: string)
    requires s == [] || (!IsSpace(s[0]) && !IsSpace(s[|s| - 1]))
    ensures Strip(s) == s
  {
  }

  /** `s.replace(a, b)` for single characters. */
  function Replace(s: string, a: char, b: char): (r: string)
    ensures |r| == |s|
    ensures forall i :: 0 <= i < |s| ==> r[i] == (if s[i] == a then b else s[i])
  {
    seq(|s|, i requires 0 <= i < |s| => if s[i] == a then b else s[i])
  }

  /** `Replace(s, a, b)` holds no `a` when `b` differs from it. */
  lemma ReplaceRemoves(s: string, a: char, b: char)
    requires a != b
    ensures a !in Replace(s, a, b)
  {
  }

  lemma ReplaceAbsent(s: string, a: char, b: char)
    requires a !in s
    ensures Replace(s, a, b) == s
  {
  }

  /** Marking with a character the text does not hold and restoring it gives
      the text back. */
  lemma ReplaceRoundTrip(s: string, a: char, b: char)
    requires b !in s
    ensures Replace(Replace(s, a, b), b, a) == s
  {
  }

  /** `replace` works piece by piece. */
  lemma ReplaceAppend(s: string, t: string, a: char, b: char)
    ensures Replace(s + t, a, b) == Replace(s, a, b) + Replace(t, a, b)
  {
  }

  /** Replacing the separator of a join by another joins with the other. */
  lemma {:induction false} ReplaceJoin(ps: seq<string>, a: char, b: char)
    requires |ps| >= 1
    requires forall i :: 0 <= i < |ps| ==> a !in ps[i]
    ensures Replace(Join(ps, a), a, b) == Join(ps, b)
  {
    ReplaceAbsent(ps[0], a, b);
    if |ps| > 1 {
      ReplaceJoin(ps[1..], a, b);
      ReplaceAppend(ps[0] + [a], Join(ps[1..], a), a, b);
      ReplaceAppend(ps[0], [a], a, b);
    }
  }

  /** A character of `Replace(s, a, b)` other than `b` is a character of `s`. */
  lemma ReplaceChars(s: string, a: char, b: char, c: char)
    requires c in Replace(s, a, b) && c != b
    ensures c in s
  {
    var i :| 0 <= i < |s| && Replace(s, a, b)[i] == c;
    assert s[i] == c;
  }

  /** `s.split(c)` for a one-character separator: never empty, no piece holds `c`. */
  function Split(s: string, c: char): (r: seq<string>)
    ensures |r| >= 1
    ensures forall i :: 0 <= i < |r| ==> c !in r[i]
    ensures c !in s <==> |r| == 1
    ensures c !in s ==> r == [s]
    decreases |s|
  {
    if s == [] then [""]
    else
      var rest := Split(s[1..], c);
      if s[0] == c then [""] + rest
      else
        assert c !in s ==> [s[0]] + rest[0] == s;
        [[s[0]] + rest[0]] + rest[1..]
  }

  /** `c.join(ps)` */
  function Join(ps: seq<string>, c: char): string
    requires |ps| >= 1
  {
    if |ps| == 1 then ps[0] else ps[0] + [c] + Join(ps[1..], c)
  }

  /** Joining two runs joins their joins. */
  lemma {:induction false} JoinAppend(ps: seq<string>, qs: seq<string>, c: char)
    requires |ps| >= 1 && |qs| >= 1
    ensures Join(ps + qs, c) == Join(ps, c) + [c] + Join(qs, c)
  {
    if |ps| > 1 {
      assert (ps + qs)[1..] == ps[1..] + qs;
      JoinAppend(ps[1..], qs, c);
    } else {
      assert (ps + qs)[1..] == qs;
    }
  }

  /** A piece joined between two runs, either of which may be empty. */
  lemma JoinAround(ps: seq<string>, x: string, qs: seq<string>, c: char)
    ensures Join(ps + [x] + qs, c)
         == (if ps == [] then [] else Join(ps, c) + [c]) + x + (if qs == [] then [] else [c] + Join(qs, c))
  {
    if ps != [] {
      JoinAppend(ps, [x] + qs, c);
      assert ps + [x] + qs == ps + ([x] + qs);
    }
    if qs != [] {
      JoinAppend([x], qs, c);
    }
  }

  /** `''.join(ps)` */
  function Concat(ps: seq<string>): string {
    if ps == [] then [] else ps[0] + Concat(ps[1..])
  }

  /** A character of a piece of `Split(s, c)` is a character of `s`. */
  lemma {:induction false} SplitChars(s: string, c: char, i: nat, ch: char)
    requires i < |Split(s, c)| && ch in Split(s, c)[i]
    ensures ch in s
    decreases |s|
  {
    if s != [] {
      var rest := Split(s[1..], c);
      if s[0] == c {
        if i > 0 { SplitChars(s[1..], c, i - 1, ch); }
      } else if i == 0 {
        if ch != s[0] { SplitChars(s[1..], c, 0, ch); }
      } else {
        SplitChars(s[1..], c, i, ch);
      }
    }
  }

  /** A character of `Concat(ps)` comes from one of the pieces. */
  lemma {:induction false} ConcatChars(ps: seq<string>, c: char)
    requires c in Concat(ps)
    ensures exists j :: 0 <= j < |ps| && c in ps[j]
  {
    if c in ps[0] {
    } else {
      ConcatChars(ps[1..], c);
      var j :| 0 <= j < |ps[1..]| && c in ps[1..][j];
      assert c in ps[j + 1];
    }
  }

  /** A character of `Join(ps, c)` is the separator or comes from one of the pieces. */
  lemma {:induction false} JoinChars(ps: seq<string>, c: char, ch: char)
    requires |ps| >= 1 && ch in Join(ps, c)
    ensures ch == c || exists j :: 0 <= j < |ps| && ch in ps[j]
  {
    if |ps| > 1 && ch !in ps[0] && ch != c {
      JoinChars(ps[1..], c, ch);
      var j :| 0 <= j < |ps[1..]| && ch in ps[1..][j];
      assert ch in ps[j + 1];
    }
  }

  /** `Join` ends with the last piece. */
  lemma {:induction false} JoinLast(ps: seq<string>, c: char)
    requires |ps| >= 1 && ps[|ps| - 1] != []
    ensures Join(ps, c) != [] && Join(ps, c)[|Join(ps, c)| - 1] == ps[|ps| - 1][|ps[|ps| - 1]| - 1]
  {
    if |ps| > 1 {
      JoinLast(ps[1..], c);
    }
  }

  /** Splitting and joining again gives the string back. */
  lemma {:induction false} JoinSplit(s: string, c: char)
    ensures Join(Split(s, c), c) == s
    decreases |s|
  {
    if s != [] {
      JoinSplit(s[1..], c);
      var rest := Split(s[1..], c);
      if s[0] != c {
        if |rest| == 1 {
        } else {
          calc {
            Join(Split(s, c), c);
            [s[0]] + rest[0] + [c] + Join(rest[1..], c);
            [s[0]] + Join(rest, c);
          }
        }
      }
    }
  }

  /** Joining pieces that do not hold the separator and splitting again gives the pieces back. */
  lemma {:induction false} SplitJoin(ps: seq<string>, c: char)
    requires |ps| >= 1
    requires forall i :: 0 <= i < |ps| ==> c !in ps[i]
    ensures Split(Join(ps, c), c) == ps
    decreases |ps|, |ps[0]|
  {
    var s := Join(ps, c);
    if |ps| == 1 {
    } else if ps[0] == [] {
      SplitJoin(ps[1..], c);
      assert s == [c] + Join(ps[1..], c);
      assert s[1..] == Join(ps[1..], c);
      assert Split(s, c) == [""] + Split(s[1..], c);
    } else {
      var ps' := [ps[0][1..]] + ps[1..];
      assert ps'[1..] == ps[1..];
      SplitJoin(ps', c);
      assert s == [ps[0][0]] + Join(ps', c);
      assert s[1..] == Join(ps', c);
      assert s[0] != c;
      var rest := Split(s[1..], c);
      assert rest == ps';
      assert Split(s, c) == [[s[0]] + rest[0]] + rest[1..];
      assert ps[0] == [ps[0][0]] + ps[0][1..];
    }
  }

  /** Concatenation regroups; stated once so that loops appending to a list
      need not rediscover it element by element. */
  lemma AppendAssociative<T>(a: seq<T>, b: seq<T>, c: seq<T>)
    ensures (a + b) + c == a + (b + c)
  {
  }

  /** `s.rfind(c)`: the last position of `c`, or -1. */
  function RFind(s: string, c: char): (i: int)
    ensures -1 <= i < |s|
    ensures i >= 0 ==> s[i] == c
    ensures forall j :: i < j < |s| ==> s[j] != c
  {
    if s == [] then -1
    else if s[|s| - 1] == c then |s| - 1
    else RFind(s[..|s| - 1], c)
  }

  /** `os.path.basename(p)`; equally `p.split('/')[-1]`. */
  function Basename(p: string): (r: string)
    ensures '/' !in r
    ensures |r| <= |p| && r == p[|p| - |r|..]
    ensures '/' !in p ==> r == p
  {
    p[RFind(p, '/') + 1..]
  }

  /** The last piece of a split is what follows the last separator. */
  lemma {:induction false} SplitLast(s: string, c: char)
    ensures var ps := Split(s, c); ps[|ps| - 1] == s[RFind(s, c) + 1..]
    decreases |s|
  {
    if s != [] {
      var t := s[1..];
      var rest := Split(t, c);
      SplitLast(t, c);
      var k := RFind(t, c);
      var i := RFind(s, c);
      RFindCons(s, c);
      var ps := Split(s, c);
      if s[0] == c {
        assert ps == [""] + rest;
        assert ps[|ps| - 1] == rest[|rest| - 1];
        assert s[i + 1..] == t[k + 1..];
      } else if |rest| > 1 {
        assert ps == [[s[0]] + rest[0]] + rest[1..];
        assert ps[|ps| - 1] == rest[|rest| - 1];
        assert s[i + 1..] == t[k + 1..];
      } else {
        assert c !in t;
        assert ps == [s];
      }
    }
  }

  /** `RFind` from the second character on. */
  lemma RFindCons(s: string, c: char)
    requires s != []
    ensures var k := RFind(s[1..], c);
      RFind(s, c) == if k >= 0 then k + 1 else if s[0] == c then 0 else -1
  {
    var t := s[1..];
    var k := RFind(t, c);
    var i := if k >= 0 then k + 1 else if s[0] == c then 0 else -1;
    forall j | i < j < |s| ensures s[j] != c {
      if j > 0 {
        assert s[j] == t[j - 1];
      }
    }
    if k >= 0 {
      assert s[k + 1] == t[k];
    }
    RFindUnique(s, c, i);
  }

  /** `RFind` is the only position with its two properties. */
  lemma RFindUnique(s: string, c: char, i: int)
    requires -1 <= i < |s|
    requires i >= 0 ==> s[i] == c
    requires forall j :: i < j < |s| ==> s[j] != c
    ensures RFind(s, c) == i
  {
  }

  /** `p.split('/')[-1]` is `os.path.basename(p)`. */
  lemma BasenameSplit(p: string)
    ensures var ps := Split(p, '/'); ps[|ps| - 1] == Basename(p)
  {
    SplitLast(p, '/');
  }

  function TrimRightSlashes(s: string): (r: string)
    ensures |r| <= |s| && r == s[..|r|]
    ensures forall i :: |r| <= i < |s| ==> s[i] == '/'
    ensures r == [] || r[|r| - 1] != '/'
  {
    if s != [] && s[|s| - 1] == '/' then TrimRightSlashes(s[..|s| - 1]) else s
  }

  /** `os.path.isabs(p)` */
  predicate IsAbsolute(p: string) {
    p != [] && p[0] == '/'
  }

  predicate EndsWithSlash(p: string) {
    p != [] && p[|p| - 1] == '/'
  }

  /** `os.path.dirname(p)` from CPython's posixpath. */
  function Dirname(p: string): (r: string)
    ensures r == [] <==> '/' !in p
    ensures |r| <= |p| && r == p[..|r|]
  {
    var head := p[..RFind(p, '/') + 1];
    if head != [] && exists i :: 0 <= i < |head| && head[i] != '/' then
      var t := TrimRightSlashes(head);
      assert t != [] by {
        var i :| 0 <= i < |head| && head[i] != '/';
      }
      t
    else
      assert '/' in p ==> p[RFind(p, '/')] in head;
      head
  }

  /** In a path `d + "/" + b` with `b` free of slashes and `d` a proper directory name,
      `Dirname` and `Basename` recover the two parts. */
  lemma {:induction false} DirnameBasename(d: string, b: string)
    requires '/' !in b
    requires d != [] && d[|d| - 1] != '/'
    ensures Dirname(d + "/" + b) == d
    ensures Basename(d + "/" + b) == b
  {
    var p := d + "/" + b;
    var k := RFind(p, '/');
    assert p[|d|] == '/';
    assert forall j :: |d| < j < |p| ==> p[j] == b[j - |d| - 1];
    assert k == |d|;
    var head := p[..k + 1];
    assert head == d + "/";
    assert head[|d| - 1] != '/';
    var t := TrimRightSlashes(head);
    assert t == d by {
      assert TrimRightSlashes(head) == TrimRightSlashes(head[..|head| - 1]);
      assert head[..|head| - 1] == d;
    }
  }

  /** Text without slashes, appended to a path, stays in its last component. */
  lemma RFindAppend(s: string, t: string, c: char)
    requires c !in t
    ensures RFind(s + t, c) == RFind(s, c)
  {
    var i := RFind(s, c);
    assert forall j :: i < j < |s + t| ==> (s + t)[j] != c by {
      forall j | i < j < |s + t| ensures (s + t)[j] != c {
        if j >= |s| {
          assert (s + t)[j] == t[j - |s|];
        }
      }
    }
    RFindUnique(s + t, c, i);
  }

  /** Appending text without slashes keeps the folder and extends the base name. */
  lemma PathAppend(s: string, t: string)
    requires '/' !in t
    ensures Dirname(s + t) == Dirname(s)
    ensures Basename(s + t) == Basename(s) + t
  {
    RFindAppend(s, t, '/');
    DirnameAppend(s, t);
    BasenameAppend(s, t);
  }

  /** Text appended after the last slash leaves the directory part alone. */
  lemma DirnameAppend(s: string, t: string)
    requires RFind(s + t, '/') == RFind(s, '/')
    ensures Dirname(s + t) == Dirname(s)
  {
    var k := RFind(s, '/');
    assert (s + t)[..k + 1] == s[..k + 1];
    DirnameSameHead(s + t, s);
  }

  /** `Dirname` depends only on the text up to the last slash. */
  lemma DirnameSameHead(p: string, q: string)
    requires p[..RFind(p, '/') + 1] == q[..RFind(q, '/') + 1]
    ensures Dirname(p) == Dirname(q)
  {
  }

  /** Text appended after the last slash extends the base name. */
  lemma BasenameAppend(s: string, t: string)
    requires RFind(s + t, '/') == RFind(s, '/')
    ensures Basename(s + t) == Basename(s) + t
  {
    var k := RFind(s, '/');
    assert (s + t)[k + 1..] == s[k + 1..] + t;
  }

  predicate HasNonDot(p: string, lo: int, hi: int)
    requires 0 <= lo <= hi <= |p|
  {
    exists j :: lo <= j < hi && p[j] != '.'
  }

  /** `os.path.splitext(p)` from CPython's posixpath: the extension starts at the
      last dot of the last path component, unless only dots precede it there. */
  function Splitext(p: string): (r: (string, string))
    ensures r.0 + r.1 == p
    ensures r.1 == [] || (r.1[0] == '.' && '/' !in r.1)
  {
    var sep := RFind(p, '/');
    var dot := RFind(p, '.');
    if dot > sep && HasNonDot(p, sep + 1, dot) then
      assert p[..dot] + p[dot..] == p;
      (p[..dot], p[dot..])
    else
      (p, [])
  }

  /** A non-empty extension is what follows the last dot of the last
      component, and the stem's base name has a character other than a dot. */
  lemma SplitextExtension(p: string)
    requires Splitext(p).1 != []
    ensures var (stem, ext) := Splitext(p);
      && '.' !in ext[1..]
      && exists i :: 0 <= i < |Basename(stem)| && Basename(stem)[i] != '.'
  {
    var sep := RFind(p, '/');
    var dot := RFind(p, '.');
    assert dot > sep && HasNonDot(p, sep + 1, dot);
    var stem := p[..dot];
    assert Splitext(p) == (stem, p[dot..]);
    SplitextTail(p, dot);
    SplitextStem(p, sep, dot);
    var j :| sep + 1 <= j < dot && p[j] != '.';
    assert Basename(stem)[j - sep - 1] == p[j];
  }

  /** After the last dot there is no other. */
  lemma SplitextTail(p: string, dot: int)
    requires 0 <= dot < |p| && dot == RFind(p, '.')
    ensures '.' !in p[dot..][1..]
  {
    var ext := p[dot..];
    forall i | 0 <= i < |ext[1..]| ensures ext[1..][i] != '.' {
      assert ext[1..][i] == p[dot + 1 + i];
    }
  }

  /** The stem ends before the last dot, so its last slash is the path's. */
  lemma SplitextStem(p: string, sep: int, dot: int)
    requires sep == RFind(p, '/') && dot == RFind(p, '.') && dot > sep
    ensures Basename(p[..dot]) == p[sep + 1..dot]
  {
    var stem := p[..dot];
    if sep >= 0 {
      assert stem[sep] == '/';
    }
    RFindUnique(stem, '/', sep);
  }

  /** When nothing is split off, no dot of the last component follows a
      character that is not a dot. */
  lemma SplitextNone(p: string)
    requires Splitext(p).1 == []
    ensures var b := Basename(p);
      forall i, j :: 0 <= i < j < |b| && b[j] == '.' ==> b[i] == '.'
  {
    var sep := RFind(p, '/');
    var dot := RFind(p, '.');
    var b := Basename(p);
    assert b == p[sep + 1..];
    forall i, j | 0 <= i < j < |b| && b[j] == '.' ensures b[i] == '.' {
      assert p[sep + 1 + j] == '.';
      assert dot >= sep + 1 + j;
      if b[i] != '.' {
        assert p[sep + 1 + i] != '.';
        assert HasNonDot(p, sep + 1, dot);
        assert false;
      }
    }
  }

  /** `s.lower()` restricted to ASCII letters. */
  function Lower(s: string): (r: string)
    ensures |r| == |s|
    ensures forall i :: 0 <= i < |s| ==> r[i] == (if 'A' <= s[i] <= 'Z' then (s[i] as int + 32) as char else s[i])
  {
    seq(|s|, i requires 0 <= i < |s| => if 'A' <= s[i] <= 'Z' then (s[i] as int + 32) as char else s[i])
  }

  /** Lowering leaves no ASCII capital. */
  lemma LowerNoCapitals(s: string)
    ensures forall i :: 0 <= i < |Lower(s)| ==> !('A' <= Lower(s)[i] <= 'Z')
  {
  }

  /** Text without ASCII capitals is its own lower case. */
  lemma LowerKeepsLower(s: string)
    requires forall i :: 0 <= i < |s| ==> !('A' <= s[i] <= 'Z')
    ensures Lower(s) == s
  {
  }

  /** Lowering twice is lowering once, so comparisons against lower-case
      extensions ignore case. */
  lemma LowerIdempotent(s: string)
    ensures Lower(Lower(s)) == Lower(s)
  {
    LowerNoCapitals(s);
    LowerKeepsLower(Lower(s));
  }
}
