/**
  Java's `String.split(String regex)` for a one-character separator that is not a
  regular-expression metacharacter (",", " " and "/" are such separators), and the
  inverse operation, joining pieces with the separator.

  Java takes a fast path for these separators: if the separator does not occur,
  the result is the whole string as one element (so "" splits into [""]);
  otherwise the string is cut at every occurrence and then, because the limit
  is 0, every trailing empty piece is discarded (so ",,," splits into []).
 */
module JavaStrings {

  /** Number of occurrences of `c` in `s`. */
  function Count(s: string, c: char): nat
  {
    if |s| == 0 then 0 else (if s[0] == c then 1 else 0) + Count(s[1..], c)
  }

  /** The pieces, joined back with `sep` between consecutive ones. */
  function Join(ps: seq<string>, sep: char): string
  {
    if |ps| == 0 then ""
    else if |ps| == 1 then ps[0]
    else ps[0] + [sep] + Join(ps[1..], sep)
  }

  /** Every piece of `s` between occurrences of `sep`, empty pieces included:
      what the split computes before it discards trailing empty pieces. */
  function Pieces(s: string, sep: char): (r: seq<string>)
    ensures |r| == Count(s, sep) + 1
    ensures forall i :: 0 <= i < |r| ==> sep !in r[i]
    ensures Join(r, sep) == s
    decreases |s|
  {
    if |s| == 0 then [""]
    else
      var rest := Pieces(s[1..], sep);
      if s[0] == sep then [""] + rest
      else
        var r := [[s[0]] + rest[0]] + rest[1..];
        assert r[1..] == rest[1..];
        assert s == [s[0]] + s[1..];
        r
  }

  /** The longest prefix of `ps` that does not end in an empty piece. */
  function StripTrailingEmpty(ps: seq<string>): (r: seq<string>)
    ensures |r| <= |ps| && r == ps[..|r|]
    ensures forall i :: |r| <= i < |ps| ==> ps[i] == ""
    ensures |r| > 0 ==> r[|r| - 1] != ""
  {
    if |ps| == 0 then []
    else if ps[|ps| - 1] == "" then StripTrailingEmpty(ps[..|ps| - 1])
    else ps
  }

  /** `s.split(sep)` in Java, for a single-character literal separator: a string
      without the separator is one element; no element holds the separator; and there
      are at most as many elements as separators plus one. */
  function JavaSplit(s: string, sep: char): (r: seq<string>)
    ensures sep !in s ==> r == [s]
    ensures forall i :: 0 <= i < |r| ==> sep !in r[i]
    ensures |r| <= Count(s, sep) + 1
  {
    if sep !in s then [s] else StripTrailingEmpty(Pieces(s, sep))
  }

  /** A separator-free string is one piece. */
  lemma {:induction false} PiecesWithoutSeparator(a: string, sep: char)
    requires sep !in a
    ensures Pieces(a, sep) == [a]
  {
    if |a| > 0 {
      PiecesWithoutSeparator(a[1..], sep);
      assert a == [a[0]] + a[1..];
    }
  }

  /** Cutting at the first separator: the part before it is the first piece. */
  lemma {:induction false} PiecesAtFirstSeparator(a: string, t: string, sep: char)
    requires sep !in a
    ensures Pieces(a + [sep] + t, sep) == [a] + Pieces(t, sep)
    decreases |a|
  {
    var s := a + [sep] + t;
    if |a| == 0 {
      assert s == [sep] + t;
      assert s[1..] == t;
    } else {
      assert s[1..] == a[1..] + [sep] + t;
      PiecesAtFirstSeparator(a[1..], t, sep);
      assert [a[0]] + a[1..] == a;
    }
  }

  /** Joining separator-free pieces and cutting the result again gives the pieces back. */
  lemma {:induction false} PiecesOfJoin(ps: seq<string>, sep: char)
    requires |ps| > 0
    requires forall i :: 0 <= i < |ps| ==> sep !in ps[i]
    ensures Pieces(Join(ps, sep), sep) == ps
  {
    if |ps| == 1 {
      PiecesWithoutSeparator(ps[0], sep);
    } else {
      PiecesOfJoin(ps[1..], sep);
      PiecesAtFirstSeparator(ps[0], Join(ps[1..], sep), sep);
      assert [ps[0]] + ps[1..] == ps;
    }
  }

  /** What Java's split returns: the pieces up to the last non-empty one,
      so that the only text of `s` it loses is a run of trailing separators. */
  lemma JavaSplitSpec(s: string, sep: char)
    ensures var r := JavaSplit(s, sep);
      && (forall i :: 0 <= i < |r| ==> sep !in r[i])
      && (s != "" && |r| > 0 ==> r[|r| - 1] != "")
      && |Join(r, sep)| <= |s| && s[..|Join(r, sep)|] == Join(r, sep)
      && (forall i :: |Join(r, sep)| <= i < |s| ==> s[i] == sep)
  {
    var r := JavaSplit(s, sep);
    if sep !in s {
      assert r == [s];
    } else {
      var ps := Pieces(s, sep);
      assert r == ps[..|r|];
      var es := ps[|r|..];
      assert ps == r + es;
      JoinThenEmpties(r, es, sep);
    }
  }

  /** Joining some pieces followed by empty pieces: the empty ones contribute only separators. */
  lemma {:induction false} JoinThenEmpties(r: seq<string>, es: seq<string>, sep: char)
    requires forall i :: 0 <= i < |es| ==> es[i] == ""
    ensures var j := Join(r, sep); var all := Join(r + es, sep);
      && |j| <= |all| && all[..|j|] == j
      && (forall i :: |j| <= i < |all| ==> all[i] == sep)
    decreases |r|, |es|
  {
    var j := Join(r, sep);
    var all := Join(r + es, sep);
    if |es| == 0 {
      assert r + es == r;
    } else if |r| == 0 {
      assert r + es == es;
      JoinOfEmpties(es, sep);
    } else if |r| == 1 {
      assert (r + es)[1..] == es;
      JoinOfEmpties(es, sep);
      assert all == r[0] + [sep] + Join(es, sep);
      assert j == r[0];
      forall i | |j| <= i < |all| ensures all[i] == sep {
        if i > |j| {
          assert all[i] == Join(es, sep)[i - |j| - 1];
        }
      }
    } else {
      assert (r + es)[1..] == r[1..] + es;
      JoinThenEmpties(r[1..], es, sep);
      assert all == r[0] + [sep] + Join(r[1..] + es, sep);
      assert j == r[0] + [sep] + Join(r[1..], sep);
    }
  }

  /** Joining only empty pieces gives nothing but separators. */
  lemma {:induction false} JoinOfEmpties(es: seq<string>, sep: char)
    requires forall i :: 0 <= i < |es| ==> es[i] == ""
    ensures var j := Join(es, sep); forall i :: 0 <= i < |j| ==> j[i] == sep
  {
    if |es| > 1 {
      JoinOfEmpties(es[1..], sep);
      assert Join(es, sep) == [sep] + Join(es[1..], sep);
    }
  }

  /** A string made of separators only is cut into empty pieces. */
  lemma {:induction false} PiecesOfSeparators(s: string, sep: char)
    requires forall i :: 0 <= i < |s| ==> s[i] == sep
    ensures forall i :: 0 <= i < |Pieces(s, sep)| ==> Pieces(s, sep)[i] == ""
  {
    if |s| > 0 {
      PiecesOfSeparators(s[1..], sep);
    }
  }

  /** Java's split returns an empty array exactly when the string is non-empty and
      consists of separators only. */
  lemma JavaSplitEmpty(s: string, sep: char)
    ensures |JavaSplit(s, sep)| == 0 <==> (s != "" && forall i :: 0 <= i < |s| ==> s[i] == sep)
  {
    if s != "" && forall i :: 0 <= i < |s| ==> s[i] == sep {
      assert s[0] == sep;
      PiecesOfSeparators(s, sep);
    }
    JavaSplitSpec(s, sep);
  }

  /** Splitting a join of separator-free pieces whose last piece is non-empty gives
      the pieces back. */
  lemma {:induction false} JavaSplitOfJoin(ps: seq<string>, sep: char)
    requires |ps| > 0
    requires forall i :: 0 <= i < |ps| ==> sep !in ps[i]
    requires |ps| == 1 || ps[|ps| - 1] != ""
    ensures JavaSplit(Join(ps, sep), sep) == ps
  {
    if |ps| == 1 {
      assert Join(ps, sep) == ps[0];
    } else {
      var j := Join(ps, sep);
      assert j[|ps[0]|] == sep;
      PiecesOfJoin(ps, sep);
    }
  }

  /** The first piece of a split that cuts at the first separator. */
  lemma JavaSplitFirst(a: string, t: string, sep: char)
    requires a != "" && sep !in a
    requires t == "" || t[0] == sep
    ensures |JavaSplit(a + t, sep)| > 0 && JavaSplit(a + t, sep)[0] == a
  {
    if t == "" {
      assert a + t == a;
    } else {
      assert a + t == a + [sep] + t[1..];
      assert (a + t)[|a|] == sep;
      PiecesAtFirstSeparator(a, t[1..], sep);
    }
  }

  /** Three pieces joined by the separator. */
  lemma JoinOfThree(a: string, b: string, c: string, sep: char)
    ensures Join([a, b, c], sep) == a + [sep] + b + [sep] + c
  {
    assert [a, b, c][1..] == [b, c];
    assert [b, c][1..] == [c];
    assert Join([c], sep) == c;
    assert Join([b, c], sep) == b + [sep] + c;
    assert Join([a, b, c], sep) == a + [sep] + (b + [sep] + c);
  }
}
