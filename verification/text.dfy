/** The string operations the channel directory relies on: `toLowerCase`,
    `includes`, `split`, `Number` and the "HH:MM" slot times. */
module Text {
  import opened Wrappers

  /** `toLowerCase` on one character; only the ASCII letters are mapped. */
  function LowerChar(c: char): char
  {
    if 'A' <= c <= 'Z' then (c as int + 32) as char else c
  }

  function ToLower(s: string): string
  {
    seq(|s|, i requires 0 <= i < |s| => LowerChar(s[i]))
  }

  /** `needle` occurs in `hay` starting at position `i`. */
  predicate OccursAt(hay: string, needle: string, i: nat)
  {
    i + |needle| <= |hay| && hay[i..i + |needle|] == needle
  }

  /** `hay.includes(needle)`. */
  function Contains(hay: string, needle: string): bool
    decreases |hay|
  {
    needle <= hay || (hay != [] && Contains(hay[1..], needle))
  }

  /** `includes` holds exactly when `needle` occurs somewhere in `hay`. */
  lemma {:induction false} ContainsOccurs(hay: string, needle: string)
    ensures Contains(hay, needle) <==> exists i: nat :: OccursAt(hay, needle, i)
    decreases |hay|
  {
    if needle <= hay {
      assert OccursAt(hay, needle, 0);
    } else if hay != [] {
      ContainsOccurs(hay[1..], needle);
      assert Contains(hay, needle) == Contains(hay[1..], needle);
      if Contains(hay[1..], needle) {
        var i: nat :| OccursAt(hay[1..], needle, i);
        assert OccursAt(hay, needle, i + 1);
      }
      if i: nat :| OccursAt(hay, needle, i) {
        assert i != 0;
        assert OccursAt(hay[1..], needle, i - 1);
      }
    }
  }

  /** `s.split(sep)`: the maximal pieces of `s` between occurrences of `sep`. */
  function Split(s: string, sep: char): (parts: seq<string>)
    ensures |parts| >= 1
    ensures forall k :: 0 <= k < |parts| ==> sep !in parts[k]
    decreases |s|
  {
    if s == [] then [""]
    else
      var rest := Split(s[1..], sep);
      if s[0] == sep then [""] + rest
      else [[s[0]] + rest[0]] + rest[1..]
  }

  /** `parts.join(sep)`, the inverse of `Split`. */
  function Join(parts: seq<string>, sep: char): string
    requires |parts| >= 1
  {
    if |parts| == 1 then parts[0] else parts[0] + [sep] + Join(parts[1..], sep)
  }

  lemma {:induction false} JoinSplit(s: string, sep: char)
    ensures Join(Split(s, sep), sep) == s
    decreases |s|
  {
    if s != [] {
      JoinSplit(s[1..], sep);
      var rest := Split(s[1..], sep);
      if s[0] == sep {
        assert Split(s, sep)[1..] == rest;
      } else {
        var parts := Split(s, sep);
        if |rest| == 1 {
          assert parts == [[s[0]] + rest[0]];
        } else {
          assert parts[1..] == rest[1..];
          assert Join(rest, sep) == rest[0] + [sep] + Join(rest[1..], sep);
        }
      }
    }
  }

  /** Splitting text that holds no separator yields the text itself. */
  lemma {:induction false} SplitWithoutSeparator(s: string, sep: char)
    requires sep !in s
    ensures Split(s, sep) == [s]
    decreases |s|
  {
    if s != [] {
      SplitWithoutSeparator(s[1..], sep);
      assert [s[0]] + s[1..] == s;
    }
  }

  /** Splitting at the first separator peels off the text before it. */
  lemma {:induction false} SplitAtFirst(x: string, sep: char, y: string)
    requires sep !in x
    ensures Split(x + [sep] + y, sep) == [x] + Split(y, sep)
    decreases |x|
  {
    if x == [] {
      assert x + [sep] + y == [sep] + y;
      assert ([sep] + y)[1..] == y;
    } else {
      SplitAtFirst(x[1..], sep, y);
      assert (x + [sep] + y)[1..] == x[1..] + [sep] + y;
      assert [x[0]] + x[1..] == x;
    }
  }

  predicate IsDigit(c: char)
  {
    '0' <= c <= '9'
  }

  predicate AllDigits(s: string)
  {
    forall i :: 0 <= i < |s| ==> IsDigit(s[i])
  }

  /** The value of a string of decimal digits, most significant first. */
  function DigitsValue(s: string): nat
    requires AllDigits(s)
  {
    if s == [] then 0 else DigitsValue(s[..|s| - 1]) * 10 + (s[|s| - 1] as int - '0' as int)
  }

  /** `Number(s)` on the texts a schedule holds: the empty text is 0, a string of
      decimal digits is its value, and anything else is NaN (`None`). */
  function ToNumber(s: string): Option<int>
  {
    if AllDigits(s) then Some(DigitsValue(s)) else None
  }

  /** The minutes since midnight that `getCurrentProgram` computes for a slot's
      time: split at ':', convert the first two pieces with `Number`, and take
      `hours * 60 + minutes`. A missing minutes piece or a piece that is not a
      number makes the result NaN (`None`). */
  function ParseTime(t: string): (r: Option<int>)
    ensures r.Some? ==> r.value >= 0
    ensures |Split(t, ':')| < 2 ==> r.None?
    ensures |Split(t, ':')| >= 2 ==>
              (r.None? <==> ToNumber(Split(t, ':')[0]).None? || ToNumber(Split(t, ':')[1]).None?)
  {
    var parts := Split(t, ':');
    if |parts| < 2 then None
    else
      match (ToNumber(parts[0]), ToNumber(parts[1]))
      case (Some(h), Some(m)) => Some(h * 60 + m)
      case _ => None
  }

  /** A time with no ':' in it has no minutes piece, so it is NaN. */
  lemma NoColonIsNaN(t: string)
    requires ':' !in t
    ensures ParseTime(t).None?
  {
    SplitWithoutSeparator(t, ':');
  }

  /** A piece that is not a number makes the time NaN whatever the other piece. */
  lemma NonNumberIsNaN(hours: string, minutes: string)
    requires ':' !in hours && ':' !in minutes
    requires !AllDigits(hours) || !AllDigits(minutes)
    ensures ParseTime(hours + [':'] + minutes).None?
  {
    SplitAtFirst(hours, ':', minutes);
    SplitWithoutSeparator(minutes, ':');
  }

  function DigitChar(d: nat): char
    requires d < 10
  {
    ('0' as int + d) as char
  }

  /** The two-digit "HH:MM" text of a time of day. */
  function TimeText(hours: nat, minutes: nat): (t: string)
    requires hours < 24 && minutes < 60
  {
    [DigitChar(hours / 10), DigitChar(hours % 10), ':', DigitChar(minutes / 10), DigitChar(minutes % 10)]
  }

  lemma TwoDigits(a: nat, b: nat)
    requires a < 10 && b < 10
    ensures AllDigits([DigitChar(a), DigitChar(b)])
    ensures DigitsValue([DigitChar(a), DigitChar(b)]) == a * 10 + b
  {
    var s := [DigitChar(a), DigitChar(b)];
    assert s[..1] == [DigitChar(a)];
    assert s[..1][..0] == [];
    assert DigitChar(a) as int - '0' as int == a;
    assert DigitChar(b) as int - '0' as int == b;
    assert DigitsValue(s[..1]) == a;
  }

  /** Every well-formed "HH:MM" text parses to its minutes since midnight. */
  lemma ParseTimeText(hours: nat, minutes: nat)
    requires hours < 24 && minutes < 60
    ensures ParseTime(TimeText(hours, minutes)) == Some(hours * 60 + minutes)
  {
    var hh := [DigitChar(hours / 10), DigitChar(hours % 10)];
    var mm := [DigitChar(minutes / 10), DigitChar(minutes % 10)];
    assert TimeText(hours, minutes) == hh + [':'] + mm;
    SplitAtFirst(hh, ':', mm);
    SplitWithoutSeparator(mm, ':');
    TwoDigits(hours / 10, hours % 10);
    TwoDigits(minutes / 10, minutes % 10);
  }
}
