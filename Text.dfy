/**
 * The string operations the games apply to words and sentences: removing the
 * punctuation characters . , ! ? (`replace(/[.,!?]/g, '')`), ASCII case
 * mapping (`toLowerCase`, `toUpperCase`), splitting on single spaces
 * (`split(' ')`) and joining with single spaces (`join(' ')`).
 */
module Text {

  /** The characters the games strip from words: . , ! ? */
  predicate IsPunctuation(c: char)
  {
    c == '.' || c == ',' || c == '!' || c == '?'
  }

  /** The string with every punctuation character removed, other characters kept in order. */
  function Clean(s: string): (r: string)
    ensures |r| <= |s|
  {
    if s == [] then []
    else if IsPunctuation(s[0]) then Clean(s[1..])
    else [s[0]] + Clean(s[1..])
  }

  /** Stripping punctuation keeps exactly the characters that are not punctuation. */
  lemma {:induction false} CleanChars(s: string)
    ensures forall i :: 0 <= i < |Clean(s)| ==> !IsPunctuation(Clean(s)[i])
    ensures forall c :: c in Clean(s) <==> c in s && !IsPunctuation(c)
  {
    if s != [] {
      CleanChars(s[1..]);
      assert s == [s[0]] + s[1..];
    }
  }

  /** A string without punctuation is its own cleaning; in particular cleaning is idempotent. */
  lemma {:induction false} CleanFixed(s: string)
    requires forall i :: 0 <= i < |s| ==> !IsPunctuation(s[i])
    ensures Clean(s) == s
  {
    if s != [] {
      CleanFixed(s[1..]);
    }
  }

  /** Cleaning works piece by piece: the cleaning of a concatenation is the concatenation of the cleanings. */
  lemma {:induction false} CleanConcat(a: string, b: string)
    ensures Clean(a + b) == Clean(a) + Clean(b)
  {
    if a != [] {
      assert (a + b)[1..] == a[1..] + b;
      CleanConcat(a[1..], b);
    } else {
      assert a + b == b;
    }
  }

  lemma CleanIdempotent(s: string)
    ensures Clean(Clean(s)) == Clean(s)
  {
    CleanChars(s);
    CleanFixed(Clean(s));
  }

  function LowerChar(c: char): (d: char)
    ensures 'A' <= c <= 'Z' ==> d as int == c as int + 32
    ensures !('A' <= c <= 'Z') ==> d == c
    ensures !('A' <= d <= 'Z')
  {
    if 'A' <= c <= 'Z' then (c as int + 32) as char else c
  }

  function UpperChar(c: char): (d: char)
    ensures 'a' <= c <= 'z' ==> d as int == c as int - 32
    ensures !('a' <= c <= 'z') ==> d == c
    ensures !('a' <= d <= 'z')
  {
    if 'a' <= c <= 'z' then (c as int - 32) as char else c
  }

  /** toLowerCase, restricted to the ASCII letters. */
  function Lower(s: string): (r: string)
    ensures |r| == |s|
    ensures forall i :: 0 <= i < |s| ==> r[i] == LowerChar(s[i])
  {
    seq(|s|, i requires 0 <= i < |s| => LowerChar(s[i]))
  }

  /** toUpperCase, restricted to the ASCII letters. */
  function Upper(s: string): (r: string)
    ensures |r| == |s|
    ensures forall i :: 0 <= i < |s| ==> r[i] == UpperChar(s[i])
  {
    seq(|s|, i requires 0 <= i < |s| => UpperChar(s[i]))
  }

  /** Lower-casing twice is lower-casing once. */
  lemma LowerIdempotent(s: string)
    ensures Lower(Lower(s)) == Lower(s)
  {
  }

  /** Two strings compared through toLowerCase: equal exactly when they agree up to ASCII case. */
  predicate EqualsIgnoringCase(a: string, b: string)
  {
    Lower(a) == Lower(b)
  }

  lemma EqualsIgnoringCaseCharwise(a: string, b: string)
    ensures EqualsIgnoringCase(a, b) <==>
      |a| == |b| && forall i :: 0 <= i < |a| ==> LowerChar(a[i]) == LowerChar(b[i])
  {
    if |a| == |b| && forall i :: 0 <= i < |a| ==> LowerChar(a[i]) == LowerChar(b[i]) {
      assert Lower(a) == Lower(b);
    }
  }

  predicate SpaceFree(w: string)
  {
    forall i :: 0 <= i < |w| ==> w[i] != ' '
  }

  predicate AllSpaceFree(ws: seq<string>)
  {
    forall k :: 0 <= k < |ws| ==> SpaceFree(ws[k])
  }

  /**
   * `split(' ')`: the maximal space-free pieces between single spaces, in
   * order; consecutive spaces give empty pieces and the empty string gives
   * one empty piece.
   */
  function Split(s: string): (r: seq<string>)
    ensures |r| >= 1
    ensures AllSpaceFree(r)
  {
    if s == [] then [""]
    else if s[0] == ' ' then [""] + Split(s[1..])
    else
      var t := Split(s[1..]);
      [[s[0]] + t[0]] + t[1..]
  }

  /** `join(' ')`: the pieces with one space between consecutive ones. */
  function Join(ws: seq<string>): (r: string)
  {
    if ws == [] then ""
    else if |ws| == 1 then ws[0]
    else ws[0] + " " + Join(ws[1..])
  }

  lemma JoinCons(c: char, w: string, ws: seq<string>)
    ensures Join([[c] + w] + ws) == [c] + Join([w] + ws)
  {
    if ws != [] {
      assert ([[c] + w] + ws)[1..] == ws;
      assert ([w] + ws)[1..] == ws;
    }
  }

  /** Joining the pieces of a split gives the string back. */
  lemma {:induction false} JoinSplit(s: string)
    ensures Join(Split(s)) == s
  {
    if s != [] {
      var t := Split(s[1..]);
      JoinSplit(s[1..]);
      if s[0] == ' ' {
        assert ([""] + t)[1..] == t;
      } else {
        assert [t[0]] + t[1..] == t;
        JoinCons(s[0], t[0], t[1..]);
      }
    }
  }

  lemma {:induction false} SplitWord(w: string)
    requires SpaceFree(w)
    ensures Split(w) == [w]
  {
    if w != [] {
      SplitWord(w[1..]);
      assert [w[0]] + w[1..] == w;
    }
  }

  lemma {:induction false} SplitAfterWord(w: string, rest: string)
    requires SpaceFree(w)
    ensures Split(w + " " + rest) == [w] + Split(rest)
  {
    if w == [] {
      assert w + " " + rest == [' '] + rest;
      assert (w + " " + rest)[1..] == rest;
    } else {
      assert (w + " " + rest)[1..] == w[1..] + " " + rest;
      SplitAfterWord(w[1..], rest);
      assert [w[0]] + w[1..] == w;
    }
  }

  /** Splitting a join of space-free pieces gives the pieces back. */
  lemma {:induction false} SplitJoin(ws: seq<string>)
    requires |ws| >= 1 && AllSpaceFree(ws)
    ensures Split(Join(ws)) == ws
  {
    if |ws| == 1 {
      SplitWord(ws[0]);
    } else {
      SplitAfterWord(ws[0], Join(ws[1..]));
      SplitJoin(ws[1..]);
    }
  }

  /**
   * For non-empty lists of space-free pieces, comparing the joined strings is
   * comparing the lists.
   */
  lemma JoinInjective(a: seq<string>, b: seq<string>)
    requires |a| >= 1 && |b| >= 1 && AllSpaceFree(a) && AllSpaceFree(b)
    ensures Join(a) == Join(b) <==> a == b
  {
    if Join(a) == Join(b) {
      SplitJoin(a);
      SplitJoin(b);
    }
  }
}
