/**
 * `getpathlist`: the input path list arrives as one bracketed string such as
 * "[a.jpg, b.jpg,c.jpg]". The first and last characters are dropped and the rest is read
 * word by word from a stream whose locale classifies ',' and ' ' as white space on top of
 * the classic C white-space characters, so runs of separators collapse and no word is empty.
 */
module PathList {
  import opened Basics

  /** The white-space class of the `tokens` locale facet: the classic table's space
    * characters plus ','. */
  predicate IsSeparator(c: char)
  {
    c == ',' || IsSpace(c)
  }

  /** The facet marks ',' and ' ' as white space and keeps the classic white space; the
    * characters of ordinary file paths, the brackets included, stay inside words. */
  lemma FacetSeparators()
    ensures IsSeparator(',') && IsSeparator(' ')
    ensures forall c :: IsSpace(c) ==> IsSeparator(c)
    ensures forall c :: 'a' <= c <= 'z' || 'A' <= c <= 'Z' || '0' <= c <= '9' ==> !IsSeparator(c)
    ensures forall c :: c in "./\\:_-~[]()" ==> !IsSeparator(c)
  {
  }

  /** A word as `operator>>` into a `std::string` extracts it: non-empty, without separators. */
  predicate IsWord(t: string)
  {
    |t| > 0 && forall i :: 0 <= i < |t| ==> !IsSeparator(t[i])
  }

  /** Length of the leading run of non-separators. */
  function WordLength(s: string): (n: nat)
    ensures n <= |s|
    ensures forall i :: 0 <= i < n ==> !IsSeparator(s[i])
    ensures n < |s| ==> IsSeparator(s[n])
  {
    if s == [] || IsSeparator(s[0]) then 0 else 1 + WordLength(s[1..])
  }

  /** The words `istream_iterator<std::string>` reads from `s`, in order. */
  function Tokens(s: string): (ts: seq<string>)
    ensures forall i :: 0 <= i < |ts| ==> IsWord(ts[i])
    decreases |s|
  {
    if s == [] then []
    else if IsSeparator(s[0]) then Tokens(s[1..])
    else
      var n := WordLength(s);
      [s[..n]] + Tokens(s[n..])
  }

  /** `path_string.substr(1, length - 2)`: drops the first and last character; a
    * one-character string leaves nothing (the count wraps to `npos`). */
  function Inner(s: string): (t: string)
    requires |s| >= 1
    ensures |s| >= 2 ==> s == [s[0]] + t + [s[|s| - 1]]
    ensures |s| == 1 ==> t == []
  {
    if |s| >= 2 then s[1..|s| - 1] else []
  }

  /** `getpathlist`: `None` stands for the `std::out_of_range` that `substr(1, ...)` throws
    * on an empty string. */
  function GetPathList(s: string): (r: Option<seq<string>>)
    ensures r.None? <==> s == []
    ensures r.Some? ==> forall i :: 0 <= i < |r.value| ==> IsWord(r.value[i])
  {
    if s == [] then None else Some(Tokens(Inner(s)))
  }

  // Partner definitions: what the words are made of, and how a list is written out.

  /** The characters of `s` that are not separators, in order. */
  function Strip(s: string): string
  {
    if s == [] then [] else (if IsSeparator(s[0]) then [] else [s[0]]) + Strip(s[1..])
  }

  function Concat(ts: seq<string>): string
  {
    if ts == [] then [] else ts[0] + Concat(ts[1..])
  }

  /** `ts` written out with `seps[i]` between paths `i` and `i + 1`: one gap per pair of
    * neighbours, each gap its own string. */
  function Join(ts: seq<string>, seps: seq<string>): string
    requires |ts| > 0 ==> |seps| == |ts| - 1
  {
    if |ts| == 0 then [] else if |ts| == 1 then ts[0]
    else ts[0] + seps[0] + Join(ts[1..], seps[1..])
  }

  predicate AllSeparators(sep: string)
  {
    forall i :: 0 <= i < |sep| ==> IsSeparator(sep[i])
  }

  /** Every gap is a non-empty run of commas and white space. */
  predicate Gaps(seps: seq<string>)
  {
    forall i :: 0 <= i < |seps| ==> |seps[i]| > 0 && AllSeparators(seps[i])
  }

  lemma {:induction false} StripAppend(a: string, b: string)
    ensures Strip(a + b) == Strip(a) + Strip(b)
    decreases |a|
  {
    if a == [] {
      assert a + b == b;
    } else {
      assert (a + b)[1..] == a[1..] + b;
      StripAppend(a[1..], b);
    }
  }

  lemma {:induction false} StripWord(t: string)
    requires forall i :: 0 <= i < |t| ==> !IsSeparator(t[i])
    ensures Strip(t) == t
    decreases |t|
  {
    if t != [] {
      StripWord(t[1..]);
      assert [t[0]] + t[1..] == t;
    }
  }

  /** Reading the words loses and reorders nothing: concatenated, they are exactly the
    * non-separator characters of the input, in input order. */
  lemma {:induction false} TokensKeepContent(s: string)
    ensures Concat(Tokens(s)) == Strip(s)
    decreases |s|
  {
    if s == [] {
    } else if IsSeparator(s[0]) {
      TokensKeepContent(s[1..]);
    } else {
      var n := WordLength(s);
      var ts := Tokens(s);
      assert ts == [s[..n]] + Tokens(s[n..]);
      assert ts[1..] == Tokens(s[n..]);
      TokensKeepContent(s[n..]);
      assert s == s[..n] + s[n..];
      StripAppend(s[..n], s[n..]);
      StripWord(s[..n]);
    }
  }

  lemma {:induction false} SkipSeparators(sep: string, rest: string)
    requires AllSeparators(sep)
    ensures Tokens(sep + rest) == Tokens(rest)
    decreases |sep|
  {
    if sep == [] {
      assert sep + rest == rest;
    } else {
      assert (sep + rest)[0] == sep[0];
      assert (sep + rest)[1..] == sep[1..] + rest;
      SkipSeparators(sep[1..], rest);
    }
  }

  lemma {:induction false} WordLengthOfWord(t: string, rest: string)
    requires IsWord(t) && (rest == [] || IsSeparator(rest[0]))
    ensures WordLength(t + rest) == |t|
    decreases |t|
  {
    if |t| > 1 {
      assert (t + rest)[1..] == t[1..] + rest;
      WordLengthOfWord(t[1..], rest);
    } else {
      assert (t + rest)[1..] == rest;
    }
  }

  /** Writing paths out with a non-empty run of separators in every gap, each gap chosen
    * independently, and reading them back gives the same paths. */
  lemma {:induction false} TokensOfJoin(ts: seq<string>, seps: seq<string>)
    requires forall i :: 0 <= i < |ts| ==> IsWord(ts[i])
    requires |ts| > 0 ==> |seps| == |ts| - 1
    requires Gaps(seps)
    ensures Tokens(Join(ts, seps)) == ts
    decreases |ts|
  {
    if |ts| == 1 {
      TokensOfWordThen(ts[0], []);
      assert ts[0] + [] == ts[0];
    } else if |ts| > 1 {
      var tail := Join(ts[1..], seps[1..]);
      var rest := seps[0] + tail;
      assert rest[0] == seps[0][0];
      TokensOfWordThen(ts[0], rest);
      assert Join(ts, seps) == ts[0] + rest;
      SkipSeparators(seps[0], tail);
      assert Gaps(seps[1..]) by {
        forall i | 0 <= i < |seps[1..]| ensures |seps[1..][i]| > 0 && AllSeparators(seps[1..][i]) {
          assert seps[1..][i] == seps[i + 1];
        }
      }
      TokensOfJoin(ts[1..], seps[1..]);
      assert ts == [ts[0]] + ts[1..];
    }
  }

  lemma Associative(x: string, y: string, z: string)
    ensures x + y + z == x + (y + z)
  {
  }

  lemma BracketedInner(open: char, m: string, close: char)
    ensures Inner([open] + m + [close]) == m
  {
    var s := [open] + m + [close];
    assert s[1..|s| - 1] == m;
  }

  /** A bracketed list written with a run of separators in each gap parses back into its
    * paths. */
  lemma PathListRoundTrip(ts: seq<string>, seps: seq<string>, open: char, close: char)
    requires forall i :: 0 <= i < |ts| ==> IsWord(ts[i])
    requires |ts| > 0 ==> |seps| == |ts| - 1
    requires Gaps(seps)
    ensures GetPathList([open] + Join(ts, seps) + [close]) == Some(ts)
  {
    BracketedInner(open, Join(ts, seps), close);
    if ts == [] {
    } else {
      TokensOfJoin(ts, seps);
    }
  }

  lemma {:induction false} TokensOfWordThen(t: string, rest: string)
    requires IsWord(t) && (rest == [] || IsSeparator(rest[0]))
    ensures Tokens(t + rest) == [t] + Tokens(rest)
  {
    WordLengthOfWord(t, rest);
    var s := t + rest;
    assert s[..|t|] == t && s[|t|..] == rest;
  }

  /** Three paths written as Dart prints a list but with the space after the second comma
    * missing, "[a, b,c]", still give exactly the three paths. */
  lemma ThreePaths(a: string, b: string, c: string)
    requires IsWord(a) && IsWord(b) && IsWord(c)
    ensures GetPathList("[" + a + ", " + b + "," + c + "]") == Some([a, b, c])
  {
    var r3 := "," + c;
    var r2 := b + r3;
    var r1 := ", " + r2;
    TokensOfWordThen(c, []);
    assert c + [] == c;
    SkipSeparators(",", c);
    TokensOfWordThen(b, r3);
    SkipSeparators(", ", r2);
    TokensOfWordThen(a, r1);
    assert Tokens(a + r1) == [a, b, c];
    BracketedInner('[', a + r1, ']');
    calc {
      "[" + a + ", " + b + "," + c + "]";
      { Associative("[" + a + ", " + b, ",", c); }
      "[" + a + ", " + b + r3 + "]";
      { Associative("[" + a + ", ", b, r3); }
      "[" + a + ", " + r2 + "]";
      { Associative("[" + a, ", ", r2); }
      "[" + a + r1 + "]";
      { Associative("[", a, r1); }
      ['['] + (a + r1) + [']'];
    }
  }

  lemma ExampleThreePaths()
    ensures GetPathList("[a.jpg, b.jpg,c.jpg]") == Some(["a.jpg", "b.jpg", "c.jpg"])
  {
    var a, b, c := "a.jpg", "b.jpg", "c.jpg";
    assert "[" + a + ", " + b + "," + c + "]" == "[a.jpg, b.jpg,c.jpg]";
    ThreePaths(a, b, c);
  }

  lemma ExampleEmptyList()
    ensures GetPathList("[]") == Some([])
    ensures GetPathList("") == None
  {
    assert Inner("[]") == [];
  }
}
