/** The JavaScript string operations the routes rely on:
    `split(" ")`, `trim()` and `toLowerCase()`. */
module Text {

  /** `s.split(" ")`: the fields between single spaces; never empty. */
  function Split(s: string): (r: seq<string>)
    ensures |r| >= 1
  {
    if s == [] then [[]]
    else
      var rest := Split(s[1..]);
      if s[0] == ' ' then [[]] + rest
      else [[s[0]] + rest[0]] + rest[1..]
  }

  /** Joining fields back with single spaces; the inverse of Split. */
  function Join(fields: seq<string>): string
    decreases |fields|
  {
    if |fields| == 0 then []
    else if |fields| == 1 then fields[0]
    else fields[0] + " " + Join(fields[1..])
  }

  predicate NoSpace(s: string)
  {
    forall i :: 0 <= i < |s| ==> s[i] != ' '
  }

  /** Split never returns a field holding a space, and Join undoes it. */
  lemma {:induction false} SplitJoin(s: string)
    ensures Join(Split(s)) == s
    ensures forall k :: 0 <= k < |Split(s)| ==> NoSpace(Split(s)[k])
  {
    if s != [] {
      SplitJoin(s[1..]);
      var rest := Split(s[1..]);
      if s[0] == ' ' {
        assert Split(s) == [[]] + rest;
        assert s == [] + " " + s[1..];
      } else {
        if |rest| == 1 {
          assert Split(s) == [[s[0]] + rest[0]];
        } else {
          assert Join(rest) == rest[0] + " " + Join(rest[1..]);
          assert Split(s)[1..] == rest[1..];
        }
        assert s == [s[0]] + s[1..];
      }
    }
  }

  /** A string without spaces is a single field. */
  lemma {:induction false} SplitNoSpace(s: string)
    requires NoSpace(s)
    ensures Split(s) == [s]
  {
    if s != [] {
      SplitNoSpace(s[1..]);
      assert [s[0]] + s[1..] == s;
    }
  }

  /** Split of a string by its first character. */
  lemma SplitCons(c: char, t: string)
    ensures Split([c] + t) ==
      if c == ' ' then [[]] + Split(t) else [[c] + Split(t)[0]] + Split(t)[1..]
  {
    assert ([c] + t)[1..] == t;
  }

  /** Splitting around a space concatenates the fields of the two sides. */
  lemma {:induction false} SplitAround(a: string, b: string)
    ensures Split(a + " " + b) == Split(a) + Split(b)
  {
    if a == [] {
      assert a + " " + b == [' '] + b;
      SplitCons(' ', b);
    } else {
      SplitAround(a[1..], b);
      SplitAroundStep(a, b);
    }
  }

  /** The inductive step of SplitAround: one more leading character. */
  lemma SplitAroundStep(a: string, b: string)
    requires a != []
    requires Split(a[1..] + " " + b) == Split(a[1..]) + Split(b)
    ensures Split(a + " " + b) == Split(a) + Split(b)
  {
    var t := a[1..] + " " + b;
    assert a + " " + b == [a[0]] + t;
    assert a == [a[0]] + a[1..];
    SplitConsAppend(a[0], a[1..], Split(b), t);
  }

  /** A leading character acts alike on the fields of u and on fields of u
      followed by more fields. */
  lemma SplitConsAppend(c: char, u: string, more: seq<string>, t: string)
    requires Split(t) == Split(u) + more
    ensures Split([c] + t) == Split([c] + u) + more
  {
    SplitCons(c, t);
    SplitCons(c, u);
    if c != ' ' {
      ExtendFirstField([c], Split(t), Split(u), more);
    }
  }

  /** Prefixing the first field commutes with appending fields. */
  lemma ExtendFirstField(p: string, x: seq<string>, y: seq<string>, more: seq<string>)
    requires |y| >= 1 && x == y + more
    ensures [p + x[0]] + x[1..] == ([p + y[0]] + y[1..]) + more
  {
    assert x[0] == y[0];
    assert x[1..] == y[1..] + more;
  }

  /** The whitespace `String.prototype.trim` removes: WhiteSpace and
      LineTerminator of ECMAScript, i.e. tab, VT, FF, space, NBSP, BOM, the
      Unicode space separators, LF, CR, LS and PS. */
  predicate IsSpace(c: char)
  {
    || c == ' ' || c == '\t' || c == '\n' || c == '\r'
    || c == '\U{000B}' || c == '\U{000C}' || c == '\U{00A0}' || c == '\U{FEFF}'
    || c == '\U{1680}' || ('\U{2000}' <= c <= '\U{200A}')
    || c == '\U{2028}' || c == '\U{2029}' || c == '\U{202F}' || c == '\U{205F}'
    || c == '\U{3000}'
  }

  /** Drops leading whitespace: the result is the longest suffix that does
      not start with whitespace. */
  function TrimStart(s: string): (r: string)
    ensures |r| <= |s| && r == s[|s| - |r|..]
    ensures forall i :: 0 <= i < |s| - |r| ==> IsSpace(s[i])
    ensures r == [] || !IsSpace(r[0])
  {
    if s == [] || !IsSpace(s[0]) then s else TrimStart(s[1..])
  }

  /** Drops trailing whitespace: the result is the longest prefix that does
      not end with whitespace. */
  function TrimEnd(s: string): (r: string)
    ensures |r| <= |s| && r == s[..|r|]
    ensures forall i :: |r| <= i < |s| ==> IsSpace(s[i])
    ensures r == [] || !IsSpace(r[|r| - 1])
  {
    if s == [] || !IsSpace(s[|s| - 1]) then s else TrimEnd(s[..|s| - 1])
  }

  /** `s.trim()`. */
  function Trim(s: string): string
  {
    TrimEnd(TrimStart(s))
  }

  /** Trimming leaves a slice of the input with whitespace cut from both
      ends and none left at either end. */
  lemma TrimIsSlice(s: string)
    ensures exists i, j ::
      && 0 <= i <= j <= |s| && Trim(s) == s[i..j]
      && (forall k :: 0 <= k < i ==> IsSpace(s[k]))
      && (forall k :: j <= k < |s| ==> IsSpace(s[k]))
    ensures Trim(s) == [] || (!IsSpace(Trim(s)[0]) && !IsSpace(Trim(s)[|Trim(s)| - 1]))
  {
    var t := TrimStart(s);
    var r := TrimEnd(t);
    var i := |s| - |t|;
    var j := i + |r|;
    assert r == s[i..j];
    forall k | j <= k < |s| ensures IsSpace(s[k]) {
      assert s[k] == t[k - i];
    }
    if r != [] {
      assert r[0] == t[0];
    }
  }

  /** A string with no whitespace at either end is left alone by trim. */
  lemma TrimUntouched(s: string)
    requires s == [] || (!IsSpace(s[0]) && !IsSpace(s[|s| - 1]))
    ensures Trim(s) == s
  {
  }

  /** The ASCII part of `toLowerCase()`. */
  function LowerChar(c: char): char
  {
    if 'A' <= c <= 'Z' then (c as int + 32) as char else c
  }

  /** `s.toLowerCase()`, for ASCII letters. */
  function Lower(s: string): (r: string)
    ensures |r| == |s|
  {
    seq(|s|, i requires 0 <= i < |s| => LowerChar(s[i]))
  }

  /** Lower-casing turns each ASCII capital into its small letter, leaves no
      capital, keeps every other character and is idempotent. */
  lemma LowerProperties(s: string)
    ensures forall i :: 0 <= i < |s| && 'A' <= s[i] <= 'Z' ==>
      'a' <= Lower(s)[i] <= 'z' && Lower(s)[i] as int - s[i] as int == 'a' as int - 'A' as int
    ensures forall i :: 0 <= i < |s| ==> !('A' <= Lower(s)[i] <= 'Z')
    ensures forall i :: 0 <= i < |s| && !('A' <= s[i] <= 'Z') ==> Lower(s)[i] == s[i]
    ensures Lower(Lower(s)) == Lower(s)
  {
  }

  /** The normalisation applied to user names and e-mail addresses. */
  function Normalize(s: string): string
  {
    Lower(Trim(s))
  }

  /** A normalised string is a fixed point of normalisation, so names stored
      by user creation clash exactly with inputs that normalise to them. */
  lemma NormalizeIdempotent(s: string)
    ensures Normalize(Normalize(s)) == Normalize(s)
  {
    var t := Trim(s);
    TrimIsSlice(s);
    var l := Lower(t);
    if l != [] {
      assert !IsSpace(l[0]) && !IsSpace(l[|l| - 1]);
    }
    TrimUntouched(l);
    LowerProperties(t);
  }
}
