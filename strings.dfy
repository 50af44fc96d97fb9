/** Go's `strings.Split` with a one-character separator, and the facts about it that the
    coordinate validator and the request URL rely on. */
module Strings {

  /** Number of occurrences of `sep` in `s`. */
  function Count(s: string, sep: char): nat
  {
    if s == [] then 0 else (if s[0] == sep then 1 else 0) + Count(s[1..], sep)
  }

  /** `strings.Split(s, string(sep))`: the pieces between occurrences of `sep`, in order.
      An empty `s` gives one empty piece, as in Go. */
  function Split(s: string, sep: char): (parts: seq<string>)
    ensures |parts| >= 1
  {
    if s == [] then [""]
    else
      var rest := Split(s[1..], sep);
      if s[0] == sep then [""] + rest
      else [[s[0]] + rest[0]] + rest[1..]
  }

  /** The inverse of `Split`: the pieces glued back with `sep` in between. */
  function Join(parts: seq<string>, sep: char): string
  {
    if parts == [] then ""
    else if |parts| == 1 then parts[0]
    else parts[0] + [sep] + Join(parts[1..], sep)
  }

  lemma {:induction false} CountAppend(a: string, b: string, sep: char)
    ensures Count(a + b, sep) == Count(a, sep) + Count(b, sep)
  {
    if a != [] {
      assert (a + b)[1..] == a[1..] + b;
      CountAppend(a[1..], b, sep);
    } else {
      assert a + b == b;
    }
  }

  lemma {:induction false} CountZero(s: string, sep: char)
    ensures Count(s, sep) == 0 <==> sep !in s
  {
    if s != [] {
      CountZero(s[1..], sep);
      assert s == [s[0]] + s[1..];
    }
  }

  /** Go returns one more piece than there are separators. */
  lemma {:induction false} SplitLength(s: string, sep: char)
    ensures |Split(s, sep)| == Count(s, sep) + 1
  {
    if s != [] {
      SplitLength(s[1..], sep);
    }
  }

  /** No piece contains the separator. */
  lemma {:induction false} SplitPiecesFree(s: string, sep: char)
    ensures forall i :: 0 <= i < |Split(s, sep)| ==> sep !in Split(s, sep)[i]
  {
    if s != [] {
      SplitPiecesFree(s[1..], sep);
    }
  }

  lemma {:induction false} ConcatAssoc(a: string, b: string, c: string, d: string)
    ensures a + b + c + d == a + (b + c + d)
  {
  }

  /** Gluing the pieces back gives the original string. */
  lemma {:induction false} JoinSplit(s: string, sep: char)
    ensures Join(Split(s, sep), sep) == s
  {
    if s != [] {
      JoinSplit(s[1..], sep);
      if s[0] == sep {
        JoinSplitAtSeparator(s, sep);
      } else {
        JoinSplitAtOther(s, sep);
      }
    }
  }

  lemma {:induction false} JoinSplitAtSeparator(s: string, sep: char)
    requires s != [] && s[0] == sep && Join(Split(s[1..], sep), sep) == s[1..]
    ensures Join(Split(s, sep), sep) == s
  {
    var rest, parts := Split(s[1..], sep), Split(s, sep);
    assert parts == [""] + rest;
    assert |parts| >= 2 && parts[0] == "" && parts[1..] == rest;
    calc {
      Join(parts, sep);
      parts[0] + [sep] + Join(parts[1..], sep);
      { assert parts[0] + [sep] == [sep]; }
      [sep] + Join(rest, sep);
      [s[0]] + s[1..];
    }
    assert s == [s[0]] + s[1..];
  }

  lemma {:induction false} JoinSplitAtOther(s: string, sep: char)
    requires s != [] && s[0] != sep && Join(Split(s[1..], sep), sep) == s[1..]
    ensures Join(Split(s, sep), sep) == s
  {
    var rest, parts := Split(s[1..], sep), Split(s, sep);
    assert parts[0] == [s[0]] + rest[0] && parts[1..] == rest[1..];
    if |rest| == 1 {
      assert parts == [[s[0]] + rest[0]];
    } else {
      calc {
        Join(parts, sep);
        [s[0]] + rest[0] + [sep] + Join(rest[1..], sep);
        { ConcatAssoc([s[0]], rest[0], [sep], Join(rest[1..], sep)); }
        [s[0]] + (rest[0] + [sep] + Join(rest[1..], sep));
        [s[0]] + Join(rest, sep);
      }
    }
    assert s == [s[0]] + s[1..];
  }

  /** A string without the separator is a single piece. */
  lemma {:induction false} SplitNoSeparator(s: string, sep: char)
    requires sep !in s
    ensures Split(s, sep) == [s]
  {
    if s != [] {
      SplitNoSeparator(s[1..], sep);
      assert s == [s[0]] + s[1..];
    }
  }

  /** Splitting distributes over a separator: the pieces of `a`, then the pieces of `b`. */
  lemma {:induction false} SplitAtSeparator(a: string, b: string, sep: char)
    ensures Split(a + [sep] + b, sep) == Split(a, sep) + Split(b, sep)
  {
    if a == [] {
      assert a + [sep] + b == [sep] + b;
      assert ([sep] + b)[1..] == b;
    } else {
      var s := a + [sep] + b;
      assert s[0] == a[0];
      assert s[1..] == a[1..] + [sep] + b;
      SplitAtSeparator(a[1..], b, sep);
    }
  }

  /** `Split` yields exactly two pieces iff the string is `x + [sep] + y` with no separator
      in `x` or `y`; the pieces are then `x` and `y`. */
  lemma {:induction false} SplitTwo(x: string, y: string, sep: char)
    requires sep !in x && sep !in y
    ensures Split(x + [sep] + y, sep) == [x, y]
  {
    SplitAtSeparator(x, y, sep);
    SplitNoSeparator(x, sep);
    SplitNoSeparator(y, sep);
  }

  /** Conversely, two pieces come from exactly one separator at position `|Split(s)[0]|`. */
  lemma {:induction false} SplitTwoPieces(s: string, sep: char)
    requires |Split(s, sep)| == 2
    ensures var parts := Split(s, sep);
      s == parts[0] + [sep] + parts[1] && sep !in parts[0] && sep !in parts[1]
  {
    var parts := Split(s, sep);
    JoinSplit(s, sep);
    SplitPiecesFree(s, sep);
    assert parts[1..] == [parts[1]];
    assert Join(parts, sep) == parts[0] + [sep] + Join([parts[1]], sep);
  }
}
