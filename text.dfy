/**
 * The string helpers the command handler relies on (`StringViewUtil::EqualsIgnoreCase`
 * and `StringViewUtil::Split`). Their implementation is not part of this model; the
 * definitions below are the behaviour the handler relies on.
 */
module Text {
  /** ASCII case folding: only 'A'..'Z' change. */
  function ToLowerAscii(c: char): char
  {
    if 'A' <= c <= 'Z' then (c as int + 32) as char else c
  }

  /** Two strings are equal ignoring ASCII case: same length, and equal character by character once folded. */
  predicate EqualsIgnoreCase(a: string, b: string)
  {
    |a| == |b| && forall i :: 0 <= i < |a| ==> ToLowerAscii(a[i]) == ToLowerAscii(b[i])
  }

  lemma EqualsIgnoreCaseTransitive(a: string, b: string, c: string)
    requires EqualsIgnoreCase(a, b) && EqualsIgnoreCase(b, c)
    ensures EqualsIgnoreCase(a, c)
  {
  }

  /** Strings whose first letters differ after folding are never equal ignoring case. */
  lemma DifferentInitials(s: string, a: string, b: string)
    requires EqualsIgnoreCase(s, a) && |a| > 0 && |b| > 0
    requires ToLowerAscii(a[0]) != ToLowerAscii(b[0])
    ensures !EqualsIgnoreCase(s, b)
  {
    assert ToLowerAscii(s[0]) == ToLowerAscii(a[0]);
  }

  /**
   * Splitting on every occurrence of `delim`; empty fields are kept, so a string with
   * k delimiters always yields k + 1 fields.
   */
  function Split(s: string, delim: char): (fields: seq<string>)
    ensures |fields| >= 1
    decreases |s|
  {
    if s == [] then [""]
    else
      var rest := Split(s[1..], delim);
      if s[0] == delim then [""] + rest
      else [[s[0]] + rest[0]] + rest[1..]
  }

  /** The inverse of `Split`: the fields glued back together with the delimiter between them. */
  function Join(fields: seq<string>, delim: char): string
    requires |fields| >= 1
    decreases |fields|
  {
    if |fields| == 1 then fields[0] else fields[0] + [delim] + Join(fields[1..], delim)
  }

  /** Splitting loses nothing: joining the fields gives back the input. */
  lemma {:induction false} JoinSplit(s: string, delim: char)
    ensures Join(Split(s, delim), delim) == s
    decreases |s|
  {
    if s != [] {
      var rest := Split(s[1..], delim);
      JoinSplit(s[1..], delim);
      if s[0] == delim {
        assert ([""] + rest)[1..] == rest;
      } else if |rest| > 1 {
        var fields := [[s[0]] + rest[0]] + rest[1..];
        assert fields[1..] == rest[1..];
        assert Join(rest, delim) == rest[0] + [delim] + Join(rest[1..], delim);
      }
    }
  }

  /** A delimiter-free prefix becomes the start of the first field. */
  lemma {:induction false} SplitPrefix(w: string, rest: string, delim: char)
    requires delim !in w
    ensures Split(w + rest, delim) == [w + Split(rest, delim)[0]] + Split(rest, delim)[1..]
    decreases |w|
  {
    if w == [] {
      var r := Split(rest, delim);
      assert w + rest == rest && w + r[0] == r[0];
      assert [r[0]] + r[1..] == r;
    } else {
      var r := Split(rest, delim);
      assert (w + rest)[0] == w[0];
      assert (w + rest)[1..] == w[1..] + rest;
      SplitPrefix(w[1..], rest, delim);
      assert [w[0]] + (w[1..] + r[0]) == w + r[0];
    }
  }

  /** Joining delimiter-free fields and splitting again gives back the fields. */
  lemma {:induction false} SplitJoin(fields: seq<string>, delim: char)
    requires |fields| >= 1
    requires forall i :: 0 <= i < |fields| ==> delim !in fields[i]
    ensures Split(Join(fields, delim), delim) == fields
    decreases |fields|
  {
    if |fields| == 1 {
      SplitPrefix(fields[0], [], delim);
      assert fields[0] + [] == fields[0];
    } else {
      var tail := Join(fields[1..], delim);
      SplitJoin(fields[1..], delim);
      assert ([delim] + tail)[0] == delim && ([delim] + tail)[1..] == tail;
      assert Split([delim] + tail, delim) == [""] + fields[1..];
      assert fields[0] + [delim] + tail == fields[0] + ([delim] + tail);
      SplitPrefix(fields[0], [delim] + tail, delim);
      assert fields[0] + "" == fields[0];
    }
  }

  /** No field produced by `Split` contains the delimiter. */
  lemma {:induction false} SplitFieldsExcludeDelimiter(s: string, delim: char)
    ensures forall i :: 0 <= i < |Split(s, delim)| ==> delim !in Split(s, delim)[i]
    decreases |s|
  {
    if s != [] {
      SplitFieldsExcludeDelimiter(s[1..], delim);
      var rest := Split(s[1..], delim);
      if s[0] != delim {
        var fields := [[s[0]] + rest[0]] + rest[1..];
        forall i | 0 <= i < |fields| ensures delim !in fields[i] {
          if i > 0 { assert fields[i] == rest[i]; }
        }
      } else {
        var fields := [""] + rest;
        forall i | 0 <= i < |fields| ensures delim !in fields[i] {
          if i > 0 { assert fields[i] == rest[i - 1]; }
        }
      }
    }
  }
}
