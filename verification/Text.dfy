/** Splitting text at a separator, and joining it again. */
module Text {
  /** The parts of `s` between separators; text without one is a single part. */
  function Split(s: string, separator: char): seq<string> {
    if s == "" then [""]
    else if s[0] == separator then [""] + Split(s[1..], separator)
    else
      var rest := Split(s[1..], separator);
      if rest == [] then [s] else [[s[0]] + rest[0]] + rest[1..]
  }

  function Join(parts: seq<string>, separator: char): string {
    if parts == [] then "" else if |parts| == 1 then parts[0] else parts[0] + [separator] + Join(parts[1..], separator)
  }

  lemma {:induction false} SplitIsNotEmpty(s: string, separator: char)
    ensures Split(s, separator) != []
  {
    if s != "" {
      SplitIsNotEmpty(s[1..], separator);
    }
  }

  /** Joining undoes splitting. */
  lemma {:induction false} JoinAfterSplit(s: string, separator: char)
    ensures Join(Split(s, separator), separator) == s
  {
    if s != "" {
      var rest := Split(s[1..], separator);
      SplitIsNotEmpty(s[1..], separator);
      JoinAfterSplit(s[1..], separator);
      if s[0] != separator {
        assert Split(s, separator)[1..] == rest[1..];
      } else {
        assert Split(s, separator)[1..] == rest;
      }
    }
  }

  /** A separator between two texts puts the parts of the one before those of the other. */
  lemma {:induction false} SplitAtSeparator(a: string, b: string, separator: char)
    ensures Split(a + [separator] + b, separator) == Split(a, separator) + Split(b, separator)
  {
    var whole := a + [separator] + b;
    if a == "" {
      assert whole[1..] == b;
    } else {
      assert whole[1..] == a[1..] + [separator] + b;
      SplitAtSeparator(a[1..], b, separator);
      SplitIsNotEmpty(a[1..], separator);
    }
  }

  lemma {:induction false} SplitPlain(s: string, separator: char)
    requires separator !in s
    ensures Split(s, separator) == [s]
  {
    if s != "" {
      SplitPlain(s[1..], separator);
      assert [s[0]] + s[1..] == s;
    }
  }

  /** Splitting undoes joining parts that have no separator in them. */
  lemma {:induction false} SplitAfterJoin(parts: seq<string>, separator: char)
    requires parts != [] && forall i :: 0 <= i < |parts| ==> separator !in parts[i]
    ensures Split(Join(parts, separator), separator) == parts
  {
    SplitPlain(parts[0], separator);
    if |parts| > 1 {
      SplitAfterJoin(parts[1..], separator);
      SplitAtSeparator(parts[0], Join(parts[1..], separator), separator);
    }
  }

  lemma {:induction false} JoinTwo(a: seq<string>, b: seq<string>, separator: char)
    requires a != [] && b != []
    ensures Join(a + b, separator) == Join(a, separator) + [separator] + Join(b, separator)
  {
    if |a| == 1 {
      assert (a + b)[1..] == b;
    } else {
      assert (a + b)[1..] == a[1..] + b;
      JoinTwo(a[1..], b, separator);
    }
  }

  lemma PartsAtEnd(prefix: string, suffix: string, separator: char)
    ensures var parts, last := Split(prefix + [separator] + suffix, separator), Split(suffix, separator);
      |last| <= |parts| && parts[|parts| - |last|..] == last
  {
    SplitAtSeparator(prefix, suffix, separator);
  }

  /** Text whose last parts are those of `suffix` ends in a separator and `suffix`, if it is not the suffix itself. */
  lemma EndsInParts(s: string, suffix: string, separator: char) returns (prefix: string)
    requires var parts, last := Split(s, separator), Split(suffix, separator);
      |last| <= |parts| && parts[|parts| - |last|..] == last
    requires s != suffix
    ensures s == prefix + [separator] + suffix
  {
    hide Split, Join;
    var parts, last := Split(s, separator), Split(suffix, separator);
    var first := parts[..|parts| - |last|];
    JoinAfterSplit(s, separator);
    JoinAfterSplit(suffix, separator);
    SplitIsNotEmpty(suffix, separator);
    assert parts == first + last;
    if first != [] {
      JoinTwo(first, last, separator);
    }
    prefix := Join(first, separator);
  }
}
