/** String helpers with the semantics of JavaScript's `Array.prototype.join`
    and `String.prototype.split` for a one-character separator. */
module Text {

  /** `s` ends with `suffix`. */
  predicate EndsWith(s: string, suffix: string)
  {
    |suffix| <= |s| && s[|s| - |suffix|..] == suffix
  }

  /** Total number of characters in `parts`. */
  function TotalLength(parts: seq<string>): nat
  {
    if |parts| == 0 then 0 else |parts[0]| + TotalLength(parts[1..])
  }

  /** Number of separators `join` puts between `n` parts. */
  function Gaps(n: nat): nat
  {
    if n == 0 then 0 else n - 1
  }

  /** `parts.join(sep)`: the parts in order with one `sep` between each neighbouring pair. */
  function Join(parts: seq<string>, sep: string): (r: string)
    ensures |r| == TotalLength(parts) + Gaps(|parts|) * |sep|
  {
    if |parts| == 0 then ""
    else if |parts| == 1 then parts[0]
    else parts[0] + sep + Join(parts[1..], sep)
  }

  /** `s.split(c)`: the maximal pieces of `s` between occurrences of `c`. */
  function Split(s: string, c: char): (r: seq<string>)
    ensures |r| >= 1
    ensures forall i :: 0 <= i < |r| ==> c !in r[i]
    ensures |r| == 1 <==> c !in s
    decreases |s|
  {
    if |s| == 0 then [""]
    else
      var rest := Split(s[1..], c);
      if s[0] == c then [""] + rest
      else [[s[0]] + rest[0]] + rest[1..]
  }

  /** `n` copies of the character `c`. */
  function Repeat(c: char, n: nat): (r: string)
    ensures |r| == n
    ensures forall i :: 0 <= i < n ==> r[i] == c
  {
    if n == 0 then "" else [c] + Repeat(c, n - 1)
  }

  /** Joining `x` in front of a non-empty list adds `x` and one separator. */
  lemma JoinCons(x: string, rest: seq<string>, sep: string)
    requires |rest| > 0
    ensures Join([x] + rest, sep) == x + sep + Join(rest, sep)
  {
    assert ([x] + rest)[1..] == rest;
  }

  /** Putting the same text in front keeps a prefix a prefix. */
  lemma PrefixExtend(a: string, b: string, x: string)
    requires a <= b
    ensures x + a <= x + b
  {
    assert (x + b)[..|x + a|] == x + a;
  }

  /** A prefix of the joined tail stays a prefix once the first part is joined in front. */
  lemma JoinTailPrefix(parts: seq<string>, sep: string, p: string)
    requires |parts| > 1
    requires p <= Join(parts[1..], sep)
    ensures parts[0] + sep + p <= Join(parts, sep)
  {
    PrefixExtend(p, Join(parts[1..], sep), parts[0] + sep);
  }

  /** Joining parts whose third is empty puts the first two parts and the empty
      one, each followed by the separator, in front of the joined rest. */
  lemma {:induction false} JoinFront(parts: seq<string>, sep: string, p: string)
    requires |parts| > 3 && parts[2] == ""
    requires p <= Join(parts[3..], sep)
    ensures parts[0] + sep + parts[1] + sep + sep + p <= Join(parts, sep)
  {
    assert parts[2..][1..] == parts[3..];
    JoinTailPrefix(parts[2..], sep, p);
    assert "" + sep + p == sep + p;
    assert parts[1..][1..] == parts[2..];
    JoinTailPrefix(parts[1..], sep, sep + p);
    JoinTailPrefix(parts, sep, parts[1] + sep + (sep + p));
    assert parts[0] + sep + (parts[1] + sep + (sep + p)) == parts[0] + sep + parts[1] + sep + sep + p;
  }

  /** Joining `init + [last, ""]` ends with the separator, `last` and the separator. */
  lemma {:induction false} JoinBack(init: seq<string>, last: string, sep: string)
    requires |init| > 0
    ensures EndsWith(Join(init + [last, ""], sep), sep + last + sep)
  {
    JoinCons(last, [""], sep);
    assert Join([""], sep) == "";
    JoinAppend(init, [last, ""], sep);
    var j := Join(init, sep);
    var back := sep + last + sep;
    assert Join(init + [last, ""], sep) == j + back;
    assert (j + back)[|j + back| - |back|..] == back;
  }

  /** Joining two non-empty lists is joining each and putting one separator between. */
  lemma {:induction false} JoinAppend(a: seq<string>, b: seq<string>, sep: string)
    requires |a| > 0 && |b| > 0
    ensures Join(a + b, sep) == Join(a, sep) + sep + Join(b, sep)
    decreases |a|
  {
    if |a| == 1 {
      assert (a + b)[1..] == b;
    } else {
      assert (a + b)[1..] == a[1..] + b;
      JoinAppend(a[1..], b, sep);
    }
  }

  /** Joining a list of empty strings leaves only the separators. */
  lemma {:induction false} JoinEmpties(parts: seq<string>, c: char)
    requires forall i :: 0 <= i < |parts| ==> parts[i] == ""
    ensures Join(parts, [c]) == Repeat(c, Gaps(|parts|))
    decreases |parts|
  {
    if |parts| > 1 {
      JoinEmpties(parts[1..], c);
      assert Join(parts, [c]) == [c] + Repeat(c, |parts| - 2);
    }
  }

  /** Splitting then joining on the same character gives back the original text. */
  lemma {:induction false} JoinSplit(s: string, c: char)
    ensures Join(Split(s, c), [c]) == s
    decreases |s|
  {
    if |s| > 0 {
      JoinSplit(s[1..], c);
      if s[0] == c {
        JoinSplitAtSeparator(s, c);
      } else {
        JoinSplitAtOther(s, c);
      }
    }
  }

  /** The inductive step of `JoinSplit` when the text starts with the separator. */
  lemma JoinSplitAtSeparator(s: string, c: char)
    requires |s| > 0 && s[0] == c
    requires Join(Split(s[1..], c), [c]) == s[1..]
    ensures Join(Split(s, c), [c]) == s
  {
    assert s == [c] + s[1..];
    var rest := Split(s[1..], c);
    assert Split(s, c) == [""] + rest;
    JoinCons("", rest, [c]);
  }

  /** The inductive step of `JoinSplit` when the text starts with another character. */
  lemma JoinSplitAtOther(s: string, c: char)
    requires |s| > 0 && s[0] != c
    requires Join(Split(s[1..], c), [c]) == s[1..]
    ensures Join(Split(s, c), [c]) == s
  {
    var rest := Split(s[1..], c);
    assert Split(s, c) == [[s[0]] + rest[0]] + rest[1..];
    JoinPrependChar(s[0], rest, [c]);
    assert s == [s[0]] + s[1..];
  }

  /** Putting a character in front of the first piece puts it in front of the joined text. */
  lemma JoinPrependChar(x: char, parts: seq<string>, sep: string)
    requires |parts| > 0
    ensures Join([[x] + parts[0]] + parts[1..], sep) == [x] + Join(parts, sep)
  {
    var first := [x] + parts[0];
    if |parts| == 1 {
      assert [first] + parts[1..] == [first];
    } else {
      var tail := Join(parts[1..], sep);
      JoinCons(first, parts[1..], sep);
      assert parts == [parts[0]] + parts[1..];
      JoinCons(parts[0], parts[1..], sep);
      assert [x] + (parts[0] + sep + tail) == [x] + parts[0] + sep + tail;
    }
  }

  /** A piece without the separator splits to itself. */
  lemma {:induction false} SplitPiece(a: string, c: char)
    requires c !in a
    ensures Split(a, c) == [a]
  {
    JoinSplit(a, c);
  }

  /** Splitting a text with a known first character: a separator starts an
      empty piece, any other character joins the first piece of the rest. */
  lemma SplitCons(x: char, t: string, c: char)
    ensures Split([x] + t, c)
      == if x == c then [""] + Split(t, c) else [[x] + Split(t, c)[0]] + Split(t, c)[1..]
  {
    assert ([x] + t)[0] == x;
    assert ([x] + t)[1..] == t;
  }

  /** A separator-free piece followed by the separator splits off as the first piece. */
  lemma {:induction false} SplitAfterPiece(a: string, b: string, c: char)
    requires c !in a
    ensures Split(a + [c] + b, c) == [a] + Split(b, c)
    decreases |a|
  {
    if |a| == 0 {
      assert a + [c] + b == [c] + b;
      SplitCons(c, b, c);
    } else {
      var t := a[1..] + [c] + b;
      assert a + [c] + b == [a[0]] + t;
      assert a[0] != c;
      SplitCons(a[0], t, c);
      SplitAfterPiece(a[1..], b, c);
      assert [a[0]] + a[1..] == a;
    }
  }

  /** Joining separator-free pieces and splitting again gives back the pieces. */
  lemma {:induction false} SplitJoin(parts: seq<string>, c: char)
    requires |parts| >= 1
    requires forall i :: 0 <= i < |parts| ==> c !in parts[i]
    ensures Split(Join(parts, [c]), c) == parts
    decreases |parts|
  {
    if |parts| == 1 {
      SplitPiece(parts[0], c);
    } else {
      SplitAfterPiece(parts[0], Join(parts[1..], [c]), c);
      SplitJoin(parts[1..], c);
      assert [parts[0]] + parts[1..] == parts;
    }
  }
}
