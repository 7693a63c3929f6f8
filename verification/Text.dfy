/** The string algorithms of common/string.hpp and the decimal conversions that the wire format relies on. */
module Text {

  datatype Option<+T> = None | Some(value: T)

  const INT_MAX: nat := 0x7fff_ffff

  // ---------------------------------------------------------------- joining

  /** Every part followed by the delimiter: what the loop of joinStr accumulates. */
  function Glue(parts: seq<string>, delim: string): string {
    if parts == [] then "" else parts[0] + delim + Glue(parts[1..], delim)
  }

  /** The parts separated by single delimiter characters: what joinStr is for. */
  function Join(parts: seq<string>, delim: char): string
    requires parts != []
  {
    if |parts| == 1 then parts[0] else parts[0] + [delim] + Join(parts[1..], delim)
  }

  lemma {:induction false} GlueAppend(parts: seq<string>, last: string, delim: string)
    ensures Glue(parts + [last], delim) == Glue(parts, delim) + last + delim
  {
    if parts == [] {
    } else {
      assert (parts + [last])[1..] == parts[1..] + [last];
      GlueAppend(parts[1..], last, delim);
    }
  }

  lemma {:induction false} GlueIsJoin(parts: seq<string>, delim: char)
    requires parts != []
    ensures Glue(parts, [delim]) == Join(parts, delim) + [delim]
  {
    if |parts| == 1 {
      assert parts[1..] == [];
    } else {
      GlueIsJoin(parts[1..], delim);
    }
  }

  /** joinStr. Taking the last character off an empty string is undefined in the source, so the caller must
      supply something to take off. */
  method JoinStr(container: seq<string>, delim: string) returns (result: string)
    requires Glue(container, delim) != ""
    ensures |delim| == 1 ==> container != [] && result == Join(container, delim[0])
    ensures result == Glue(container, delim)[..|Glue(container, delim)| - 1]
  {
    result := "";
    for i := 0 to |container|
      invariant result == Glue(container[..i], delim)
    {
      GlueAppend(container[..i], container[i], delim);
      assert container[..i + 1] == container[..i] + [container[i]];
      result := result + (container[i] + delim);
    }
    assert container[..|container|] == container;
    if |delim| == 1 {
      GlueIsJoin(container, delim[0]);
      assert delim == [delim[0]];
    }
    result := result[..|result| - 1];
  }

  // --------------------------------------------------------------- splitting

  /** The pieces of `s` when `segment` has been read so far. A trailing empty piece is dropped, inner ones are kept. */
  function SplitFrom(segment: string, s: string, delim: char): seq<string>
    decreases |s|
  {
    if s == "" then (if segment != "" then [segment] else [])
    else if s[0] == delim then [segment] + SplitFrom("", s[1..], delim)
    else SplitFrom(segment + [s[0]], s[1..], delim)
  }

  function Split(s: string, delim: char): seq<string> { SplitFrom("", s, delim) }

  /** splitStr into a std::vector: the pieces go behind what is there already. */
  method SplitStr(out: seq<string>, str: string, delim: char) returns (out': seq<string>)
    ensures out' == out + Split(str, delim)
  {
    out' := out;
    var segment := "";
    for i := 0 to |str|
      invariant out' + SplitFrom(segment, str[i..], delim) == out + Split(str, delim)
    {
      assert str[i..][1..] == str[i + 1..];
      if str[i] == delim {
        assert out' + SplitFrom(segment, str[i..], delim) == (out' + [segment]) + SplitFrom("", str[i + 1..], delim);
        out' := out' + [segment];
        segment := "";
      } else {
        segment := segment + [str[i]];
      }
    }
    if segment != "" {
      out' := out' + [segment];
    }
  }

  /** splitStr into a std::set: the same pieces without order or repetition. */
  method SplitStrSet(str: string, delim: char) returns (out: set<string>)
    ensures out == Elements(Split(str, delim))
  {
    var pieces := SplitStr([], str, delim);
    assert [] + Split(str, delim) == Split(str, delim);
    out := {};
    for i := 0 to |pieces|
      invariant out == Elements(pieces[..i])
    {
      assert pieces[..i + 1] == pieces[..i] + [pieces[i]];
      out := out + {pieces[i]};
    }
    assert pieces[..|pieces|] == pieces;
  }

  function Elements<T>(s: seq<T>): set<T> { set x | x in s }

  predicate DelimFree(parts: seq<string>, delim: char) { forall p | p in parts :: delim !in p }

  lemma {:induction false} SplitFromDelimFree(segment: string, s: string, delim: char)
    requires delim !in segment
    ensures DelimFree(SplitFrom(segment, s, delim), delim)
    decreases |s|
  {
    if s == "" {
    } else if s[0] == delim {
      SplitFromDelimFree("", s[1..], delim);
    } else {
      SplitFromDelimFree(segment + [s[0]], s[1..], delim);
    }
  }

  lemma {:induction false} SplitFromPart(segment: string, part: string, rest: string, delim: char)
    requires delim !in part
    ensures SplitFrom(segment, part + rest, delim) == SplitFrom(segment + part, rest, delim)
    decreases |part|
  {
    if part == "" {
      assert part + rest == rest && segment + part == segment;
    } else {
      assert (part + rest)[1..] == part[1..] + rest;
      assert segment + part == (segment + [part[0]]) + part[1..];
      SplitFromPart(segment + [part[0]], part[1..], rest, delim);
    }
  }

  lemma {:induction false} SplitOfJoin(parts: seq<string>, delim: char)
    requires parts != [] && DelimFree(parts, delim)
    ensures Split(Join(parts, delim), delim)
            == if parts[|parts| - 1] == "" then parts[..|parts| - 1] else parts
  {
    var head := parts[0];
    if |parts| == 1 {
      SplitFromPart("", head, "", delim);
      assert head + "" == head && "" + head == head;
    } else {
      var tail := Join(parts[1..], delim);
      SplitOfJoin(parts[1..], delim);
      assert head + [delim] + tail == head + ([delim] + tail);
      SplitFromPart("", head, [delim] + tail, delim);
      assert ([delim] + tail)[1..] == tail && "" + head == head;
    }
  }

  /** Splitting undoes joining exactly for delimiter-free parts whose last one is not empty. */
  lemma JoinSplitRoundTrip(parts: seq<string>, delim: char)
    requires parts != []
    ensures Split(Join(parts, delim), delim) == parts
            <==> DelimFree(parts, delim) && parts[|parts| - 1] != ""
  {
    SplitFromDelimFree("", Join(parts, delim), delim);
    if DelimFree(parts, delim) {
      SplitOfJoin(parts, delim);
    }
  }

  /** Joining distinguishes any two lists of delimiter-free nonempty parts, so a joined address can key a map. */
  lemma JoinInjective(a: seq<string>, b: seq<string>, delim: char)
    requires a != [] && b != [] && DelimFree(a, delim) && DelimFree(b, delim)
    requires a[|a| - 1] != "" && b[|b| - 1] != ""
    ensures Join(a, delim) == Join(b, delim) ==> a == b
  {
    JoinSplitRoundTrip(a, delim);
    JoinSplitRoundTrip(b, delim);
  }

  // ----------------------------------------------------------------- decimal

  predicate IsDigit(c: char) { '0' <= c <= '9' }

  function Digit(d: nat): (c: char)
    requires d < 10
    ensures IsDigit(c)
  {
    (d + '0' as nat) as char
  }

  function DigitValue(c: char): nat
    requires IsDigit(c)
  {
    c as nat - '0' as nat
  }

  /** std::to_string of an unsigned integer. */
  function ToString(n: nat): string {
    if n < 10 then [Digit(n)] else ToString(n / 10) + [Digit(n % 10)]
  }

  /** The leading digits of a string, the part that std::stoi converts. */
  function Digits(s: string): string {
    if s == "" || !IsDigit(s[0]) then "" else [s[0]] + Digits(s[1..])
  }

  function Value(digits: string): nat
    requires forall c | c in digits :: IsDigit(c)
  {
    if digits == "" then 0 else 10 * Value(digits[..|digits| - 1]) + DigitValue(digits[|digits| - 1])
  }

  lemma {:induction false} DigitsAreDigits(s: string)
    ensures forall c | c in Digits(s) :: IsDigit(c)
  {
    if s == "" || !IsDigit(s[0]) {
    } else {
      DigitsAreDigits(s[1..]);
    }
  }

  /** The number that a string starts with, 0 when there is none. */
  function Number(s: string): nat {
    DigitsAreDigits(s);
    Value(Digits(s))
  }

  /** std::stoi on unsigned text: None stands for std::invalid_argument and std::out_of_range. */
  function StoI(s: string): Option<nat> {
    if Digits(s) == "" || Number(s) > INT_MAX then None else Some(Number(s))
  }

  lemma {:induction false} DigitsOfDigits(s: string)
    requires forall c | c in s :: IsDigit(c)
    ensures Digits(s) == s
  {
    if s == "" {
    } else {
      DigitsOfDigits(s[1..]);
    }
  }

  lemma {:induction false} ToStringValue(n: nat)
    ensures forall c | c in ToString(n) :: IsDigit(c)
    ensures ToString(n) != "" && Value(ToString(n)) == n
  {
    if n < 10 {
      assert ToString(n)[..0] == "";
    } else {
      ToStringValue(n / 10);
      assert ToString(n)[..|ToString(n)| - 1] == ToString(n / 10);
    }
  }

  /** Printing is undone by reading the digits back, so distinct numbers print differently. */
  lemma NumberOfToString(n: nat)
    ensures Number(ToString(n)) == n && Digits(ToString(n)) == ToString(n) != ""
  {
    ToStringValue(n);
    DigitsOfDigits(ToString(n));
  }

  lemma ToStringInjective(a: nat, b: nat)
    ensures ToString(a) == ToString(b) ==> a == b
  {
    NumberOfToString(a);
    NumberOfToString(b);
  }

  /** std::stoi undoes std::to_string exactly for the numbers an int can hold. */
  lemma StoIRoundTrip(n: nat)
    ensures StoI(ToString(n)) == Some(n) <==> n <= INT_MAX
    ensures n > INT_MAX ==> StoI(ToString(n)) == None
  {
    NumberOfToString(n);
  }

  lemma ToStringColonFree(n: nat)
    ensures ':' !in ToString(n)
  {
  }
}
