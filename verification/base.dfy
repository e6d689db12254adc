/**
 Shared vocabulary of the registry-cache model: optional values, results,
 decoded-or-not provider payloads, and the handful of Go standard-library
 string operations the extension relies on (strings.Split, strings.Replace,
 decimal formatting with %d, and the path cleaning done by filepath.Join).
 */
module Base {

  /** A Go pointer or a possibly absent field: nil is None. */
  datatype Option<+T> = None | Some(value: T)

  /** A value or an error, as a Go `(T, error)` pair. */
  datatype Result<+T, +E> = Ok(value: T) | Err(error: E)

  /** A raw provider payload after the decoder has looked at it. */
  datatype Raw<+T> = Decodes(value: T) | Undecodable(reason: string)

  /** The outcome of one actuator call: the error it returned, if any, and the
      external effects it caused, in order. */
  datatype Run<+E, +Op> = Run(error: Option<E>, effects: seq<Op>)

  /** The outcome of one node-config mutation: the mutated value the caller
      sees afterwards, and the error returned, if any. */
  datatype Ensured<+T, +E> = Ensured(value: T, error: Option<E>)

  // ---------------------------------------------------------------------
  // strings.Split / strings.Join for a one-character separator
  // ---------------------------------------------------------------------

  /** Go's strings.Split(s, string(sep)): never empty, one more part than
      there are separators in s. */
  function Split(s: string, sep: char): (parts: seq<string>)
    ensures |parts| >= 1
    ensures forall i :: 0 <= i < |parts| ==> sep !in parts[i]
  {
    if |s| == 0 then [""]
    else
      var rest := Split(s[1..], sep);
      if s[0] == sep then [""] + rest
      else [[s[0]] + rest[0]] + rest[1..]
  }

  /** Go's strings.Join(parts, string(sep)). */
  function Join(parts: seq<string>, sep: char): string
  {
    if |parts| == 0 then ""
    else if |parts| == 1 then parts[0]
    else parts[0] + [sep] + Join(parts[1..], sep)
  }

  /** Joining the parts of a split gives back the original text. */
  lemma {:induction false} JoinSplit(s: string, sep: char)
    ensures Join(Split(s, sep), sep) == s
  {
    if |s| == 0 {
    } else {
      var rest := Split(s[1..], sep);
      JoinSplit(s[1..], sep);
      if s[0] == sep {
        assert Split(s, sep) == [""] + rest;
        assert Join([""] + rest, sep) == "" + [sep] + Join(rest, sep);
        assert s == [s[0]] + s[1..];
      } else {
        assert Split(s, sep) == [[s[0]] + rest[0]] + rest[1..];
        JoinConsChar(s[0], rest, sep);
        assert s == [s[0]] + s[1..];
      }
    }
  }

  /** Putting a character in front of the first part puts it in front of the
      join. */
  lemma JoinConsChar(c: char, rest: seq<string>, sep: char)
    requires |rest| >= 1
    ensures Join([[c] + rest[0]] + rest[1..], sep) == [c] + Join(rest, sep)
  {
    var parts := [[c] + rest[0]] + rest[1..];
    if |rest| > 1 {
      assert parts[1..] == rest[1..];
      var tail := [sep] + Join(rest[1..], sep);
      assert Join(parts, sep) == ([c] + rest[0]) + tail;
      assert Join(rest, sep) == rest[0] + tail;
      ConcatAssoc([c], rest[0], tail);
    }
  }

  /** Splitting the join of separator-free parts gives back the parts. */
  lemma {:induction false} SplitJoin(parts: seq<string>, sep: char)
    requires |parts| >= 1
    requires forall i :: 0 <= i < |parts| ==> sep !in parts[i]
    ensures Split(Join(parts, sep), sep) == parts
    decreases |parts|, |parts[0]|
  {
    var head := parts[0];
    if |head| == 0 {
      if |parts| == 1 {
      } else {
        var tail := parts[1..];
        SplitJoin(tail, sep);
        var s := Join(parts, sep);
        assert s == [sep] + Join(tail, sep);
        assert s[1..] == Join(tail, sep);
        assert Split(s, sep) == [""] + tail;
        assert parts == [""] + tail;
      }
    } else {
      var shorter := parts[0 := head[1..]];
      assert sep !in head[1..] by {
        forall k | 0 <= k < |head[1..]| ensures head[1..][k] != sep {
          assert head[1..][k] == head[k + 1];
        }
      }
      SplitJoin(shorter, sep);
      var s := Join(parts, sep);
      var t := Join(shorter, sep);
      JoinConsHead(parts, sep);
      JoinConsHead(shorter, sep);
      assert shorter[1..] == parts[1..];
      assert s == [head[0]] + t;
      assert s[0] == head[0] && s[1..] == t;
      assert head[0] != sep by { assert head[0] in head; }
      var rest := Split(t, sep);
      assert Split(s, sep) == [[head[0]] + rest[0]] + rest[1..];
      assert rest == shorter;
      assert [head[0]] + head[1..] == head;
    }
  }

  /** The text of a join starts with the first part followed by the join of the rest. */
  lemma JoinConsHead(parts: seq<string>, sep: char)
    requires |parts| >= 1
    ensures |parts| == 1 ==> Join(parts, sep) == parts[0]
    ensures |parts| > 1 ==> Join(parts, sep) == parts[0] + [sep] + Join(parts[1..], sep)
  {
  }

  /** The first part of a split is the text before the first separator: a
      separator-free prefix of s that is either all of s or is followed by
      the separator. */
  lemma {:induction false} SplitHead(s: string, sep: char)
    ensures Split(s, sep)[0] <= s
    ensures sep !in Split(s, sep)[0]
    ensures Split(s, sep)[0] == s || s[|Split(s, sep)[0]|] == sep
  {
    if |s| > 0 && s[0] != sep {
      SplitHead(s[1..], sep);
      var rest := Split(s[1..], sep);
      assert Split(s, sep)[0] == [s[0]] + rest[0];
      assert s == [s[0]] + s[1..];
    }
  }

  /** Text without the separator splits into itself alone. */
  lemma {:induction false} SplitNoSeparator(s: string, sep: char)
    requires sep !in s
    ensures Split(s, sep) == [s]
  {
    if |s| > 0 {
      assert sep !in s[1..] by {
        forall k | 0 <= k < |s[1..]| ensures s[1..][k] != sep {
          assert s[1..][k] == s[k + 1];
        }
      }
      SplitNoSeparator(s[1..], sep);
      assert s == [s[0]] + s[1..];
    }
  }

  /** The first part of a split is everything before the first separator. */
  lemma {:induction false} SplitHeadBeforeSeparator(a: string, b: string, sep: char)
    requires sep !in a
    ensures Split(a + [sep] + b, sep)[0] == a
  {
    if |a| > 0 {
      assert sep !in a[1..] by {
        forall k | 0 <= k < |a[1..]| ensures a[1..][k] != sep {
          assert a[1..][k] == a[k + 1];
        }
      }
      SplitHeadBeforeSeparator(a[1..], b, sep);
      var s := a + [sep] + b;
      assert s[1..] == a[1..] + [sep] + b;
      assert s[0] == a[0];
      assert [a[0]] + a[1..] == a;
    } else {
      assert a + [sep] + b == [sep] + b;
    }
  }

  // ---------------------------------------------------------------------
  // strings.Replace(s, old, new, -1) for one-character old and new
  // ---------------------------------------------------------------------

  /** Every occurrence of `from` in s replaced by `to`. */
  function ReplaceAll(s: string, from: char, to: char): (r: string)
    ensures |r| == |s|
    ensures forall i :: 0 <= i < |s| ==> r[i] == if s[i] == from then to else s[i]
  {
    if |s| == 0 then ""
    else [if s[0] == from then to else s[0]] + ReplaceAll(s[1..], from, to)
  }

  // ---------------------------------------------------------------------
  // Decimal rendering, as fmt's %d and strconv.Itoa produce it
  // ---------------------------------------------------------------------

  predicate IsDigit(c: char) { '0' <= c <= '9' }

  function DigitChar(d: nat): (c: char)
    requires d < 10
    ensures IsDigit(c) && c as int - '0' as int == d
  {
    "0123456789"[d]
  }

  /** The shortest decimal spelling of n: digits only, no leading zero. */
  function NatToString(n: nat): (r: string)
    ensures |r| >= 1
    ensures forall i :: 0 <= i < |r| ==> IsDigit(r[i])
    ensures r[0] != '0' || n == 0
  {
    if n < 10 then [DigitChar(n)]
    else NatToString(n / 10) + [DigitChar(n % 10)]
  }

  /** The value of a string of decimal digits. */
  function DigitsValue(s: string): nat
    requires forall i :: 0 <= i < |s| ==> IsDigit(s[i])
  {
    if |s| == 0 then 0
    else DigitsValue(s[..|s| - 1]) * 10 + DigitValue(s[|s| - 1])
  }

  function DigitValue(c: char): (d: nat)
    requires IsDigit(c)
    ensures d < 10
  {
    c as int - '0' as int
  }

  /** Reading back a rendered number gives the number. */
  lemma {:induction false} NatToStringRoundTrip(n: nat)
    ensures DigitsValue(NatToString(n)) == n
  {
    if n >= 10 {
      NatToStringRoundTrip(n / 10);
      var s := NatToString(n);
      assert s[..|s| - 1] == NatToString(n / 10);
    }
  }

  /** Distinct numbers render as distinct strings. */
  lemma NatToStringInjective(a: nat, b: nat)
    ensures NatToString(a) == NatToString(b) ==> a == b
  {
    NatToStringRoundTrip(a);
    NatToStringRoundTrip(b);
  }

  /** %d of a signed integer. */
  function IntToString(i: int): (r: string)
    ensures i >= 0 ==> r == NatToString(i)
    ensures i < 0 ==> |r| >= 2 && r[0] == '-' && r[1..] == NatToString(-i)
  {
    if i < 0 then "-" + NatToString(-i) else NatToString(i)
  }

  // ---------------------------------------------------------------------
  // filepath.Join on a rooted first element: join with '/' and Clean
  // ---------------------------------------------------------------------

  /** The lexical resolution Clean performs on the '/'-separated segments of a
      rooted path: empty and "." segments vanish, ".." removes the previous
      kept segment (and is ignored at the root). */
  function Resolve(segments: seq<string>, kept: seq<string>): seq<string>
  {
    if |segments| == 0 then kept
    else
      var s := segments[0];
      if s == "" || s == "." then Resolve(segments[1..], kept)
      else if s == ".." then Resolve(segments[1..], if |kept| > 0 then kept[..|kept| - 1] else kept)
      else Resolve(segments[1..], kept + [s])
  }

  /** Go's path cleaning for a path that starts with '/'. */
  function CleanRooted(path: string): string
  {
    "/" + Join(Resolve(Split(path, '/'), []), '/')
  }

  /** filepath.Join(dir, elem, file) for a rooted dir. */
  function JoinPath(dir: string, elem: string, file: string): string
  {
    CleanRooted(dir + "/" + elem + "/" + file)
  }

  /** A single path segment that Clean leaves alone. */
  predicate IsPlainSegment(s: string)
  {
    s != "" && s != "." && s != ".." && '/' !in s
  }

  /** Resolving plain segments keeps every one of them. */
  lemma {:induction false} ResolvePlain(segments: seq<string>, kept: seq<string>)
    requires forall i :: 0 <= i < |segments| ==> IsPlainSegment(segments[i])
    ensures Resolve(segments, kept) == kept + segments
  {
    if |segments| > 0 {
      ResolvePlain(segments[1..], kept + [segments[0]]);
      assert kept + [segments[0]] + segments[1..] == kept + segments;
    }
  }

  /** A rooted path made of plain segments is already clean. */
  lemma CleanRootedPlain(segments: seq<string>)
    requires |segments| >= 1
    requires forall i :: 0 <= i < |segments| ==> IsPlainSegment(segments[i])
    ensures CleanRooted("/" + Join(segments, '/')) == "/" + Join(segments, '/')
  {
    var joined := Join(segments, '/');
    assert forall i :: 0 <= i < |segments| ==> '/' !in segments[i];
    SplitJoin(segments, '/');
    SplitRootedStep(joined);
    var parts := Split("/" + joined, '/');
    assert parts == [""] + segments;
    ResolvePlain(segments, []);
    ResolveSkipEmpty(segments);
    assert Resolve(parts, []) == segments;
  }

  /** A leading empty segment is skipped. */
  lemma ResolveSkipEmpty(segments: seq<string>)
    ensures Resolve([""] + segments, []) == Resolve(segments, [])
  {
    assert ([""] + segments)[1..] == segments;
  }

  /** A leading separator splits off an empty first part. */
  lemma SplitRootedStep(rest: string)
    ensures Split("/" + rest, '/') == [""] + Split(rest, '/')
  {
    var path := "/" + rest;
    assert path[0] == '/' && path[1..] == rest;
  }

  /** filepath.Join of a rooted directory made of plain segments, a plain
      element and a plain file name is their plain '/'-concatenation. */
  lemma JoinPathPlain(dirSegments: seq<string>, elem: string, file: string)
    requires |dirSegments| >= 1
    requires forall i :: 0 <= i < |dirSegments| ==> IsPlainSegment(dirSegments[i])
    requires IsPlainSegment(elem) && IsPlainSegment(file)
    ensures var dir := "/" + Join(dirSegments, '/');
            JoinPath(dir, elem, file) == dir + "/" + elem + "/" + file
  {
    var all := dirSegments + [elem, file];
    AllPlainAppend(dirSegments, elem, file);
    JoinTwoMore(dirSegments, elem, file);
    CleanRootedPlain(all);
  }

  lemma AllPlainAppend(segments: seq<string>, elem: string, file: string)
    requires forall i :: 0 <= i < |segments| ==> IsPlainSegment(segments[i])
    requires IsPlainSegment(elem) && IsPlainSegment(file)
    ensures forall i :: 0 <= i < |segments + [elem, file]| ==> IsPlainSegment((segments + [elem, file])[i])
  {
  }

  lemma JoinTwoMore(segments: seq<string>, elem: string, file: string)
    requires |segments| >= 1
    ensures "/" + Join(segments, '/') + "/" + elem + "/" + file == "/" + Join(segments + [elem, file], '/')
  {
    var tail := [elem, file];
    var j := Join(segments, '/');
    JoinAppend(segments, tail, '/');
    assert tail[1..] == [file];
    assert Join(tail, '/') == elem + "/" + file;
    Regroup("/", j, "/", elem, "/", file);
  }

  /** A text framed by the same prefix and suffix determines what sits in
      between. */
  lemma HoleInjective<T>(p: seq<T>, x: seq<T>, y: seq<T>, s: seq<T>)
    ensures p + x + s == p + y + s ==> x == y
  {
    if p + x + s == p + y + s {
      assert |x| == |y|;
      assert x == (p + x + s)[|p| .. |p| + |x|];
      assert y == (p + y + s)[|p| .. |p| + |y|];
    }
  }

  /** A text with two holes, framed by the same three pieces, determines both
      holes once the first hole's length is known. */
  lemma TwoHolesInjective<T>(a: seq<T>, x1: seq<T>, b: seq<T>, y1: seq<T>, c: seq<T>, x2: seq<T>, y2: seq<T>)
    requires |x1| == |x2|
    ensures a + x1 + b + y1 + c == a + x2 + b + y2 + c ==> x1 == x2 && y1 == y2
  {
    if a + x1 + b + y1 + c == a + x2 + b + y2 + c {
      var t := a + x1 + b + y1 + c;
      assert x1 == t[|a| .. |a| + |x1|];
      assert x2 == (a + x2 + b + y2 + c)[|a| .. |a| + |x2|];
      assert |y1| == |y2|;
      var k := |a| + |x1| + |b|;
      assert y1 == t[k .. k + |y1|];
      assert y2 == (a + x2 + b + y2 + c)[k .. k + |y2|];
    }
  }

  /** Concatenation is associative. */
  lemma ConcatAssoc<T>(a: seq<T>, b: seq<T>, c: seq<T>)
    ensures a + (b + c) == (a + b) + c
  {
  }

  /** Regrouping a chain of six concatenations. */
  lemma Regroup<T>(a: seq<T>, b: seq<T>, c: seq<T>, d: seq<T>, e: seq<T>, f: seq<T>)
    ensures a + b + c + d + e + f == a + ((b + c) + ((d + e) + f))
  {
    assert a + b + c + d + e + f == a + (b + c + d + e + f);
    assert b + c + d + e + f == (b + c) + (d + e + f);
  }

  /** Joining two non-empty lists puts one separator between their joins. */
  lemma {:induction false} JoinAppend(a: seq<string>, b: seq<string>, sep: char)
    requires |a| >= 1 && |b| >= 1
    ensures Join(a + b, sep) == Join(a, sep) + [sep] + Join(b, sep)
  {
    if |a| == 1 {
      assert (a + b)[1..] == b;
    } else {
      JoinAppend(a[1..], b, sep);
      assert (a + b)[1..] == a[1..] + b;
    }
  }

  // ---------------------------------------------------------------------
  // A loop that builds a list and stops at the first error
  // ---------------------------------------------------------------------

  /** f applied to each element in order, the results concatenated; the
      first error ends the loop and is returned. */
  function Collect<T, O, E>(xs: seq<T>, f: T -> Result<seq<O>, E>): Result<seq<O>, E>
  {
    if |xs| == 0 then Ok([])
    else
      match f(xs[0])
      case Err(e) => Err(e)
      case Ok(first) =>
        match Collect(xs[1..], f)
        case Err(e) => Err(e)
        case Ok(rest) => Ok(first + rest)
  }

  /** The loop succeeds exactly when every step does. */
  lemma {:induction false} CollectOk<T, O, E>(xs: seq<T>, f: T -> Result<seq<O>, E>)
    ensures Collect(xs, f).Ok? <==> forall i :: 0 <= i < |xs| ==> f(xs[i]).Ok?
  {
    if |xs| > 0 {
      CollectOk(xs[1..], f);
      assert forall j :: 1 <= j < |xs| ==> xs[j] == xs[1..][j - 1];
    }
  }

  /** A failing loop returns the error of its first failing step. */
  lemma {:induction false} CollectFirstError<T, O, E>(xs: seq<T>, f: T -> Result<seq<O>, E>, i: nat)
    requires i < |xs| && f(xs[i]).Err?
    requires forall j :: 0 <= j < i ==> f(xs[j]).Ok?
    ensures Collect(xs, f) == Err(f(xs[i]).error)
  {
    if i > 0 {
      assert forall j :: 0 <= j < i - 1 ==> xs[1..][j] == xs[j + 1];
      CollectFirstError(xs[1..], f, i - 1);
    }
  }

  /** Some step fails: then there is a first one, and the loop returns its
      error. */
  lemma FirstFailure<T, O, E>(xs: seq<T>, f: T -> Result<seq<O>, E>, i: nat) returns (k: nat)
    requires i < |xs| && f(xs[i]).Err?
    ensures k <= i && f(xs[k]).Err?
    ensures forall j :: 0 <= j < k ==> f(xs[j]).Ok?
    ensures Collect(xs, f) == Err(f(xs[k]).error)
  {
    k := 0;
    while f(xs[k]).Ok?
      invariant k <= i
      invariant forall j :: 0 <= j < k ==> f(xs[j]).Ok?
      decreases i - k
    {
      k := k + 1;
    }
    CollectFirstError(xs, f, k);
  }

  /** When every step yields two items, a successful loop yields twice as
      many items as steps. */
  lemma {:induction false} CollectPairsLength<T, O, E>(xs: seq<T>, f: T -> Result<seq<O>, E>)
    requires forall x :: f(x).Ok? ==> |f(x).value| == 2
    requires Collect(xs, f).Ok?
    ensures |Collect(xs, f).value| == 2 * |xs|
  {
    if |xs| > 0 {
      CollectPairsLength(xs[1..], f);
    }
  }

  /** When every step yields two items, step i's items sit at positions 2i
      and 2i + 1 of a successful loop's result. */
  lemma {:induction false} CollectPairsAt<T, O, E>(xs: seq<T>, f: T -> Result<seq<O>, E>, i: nat)
    requires forall x :: f(x).Ok? ==> |f(x).value| == 2
    requires Collect(xs, f).Ok? && i < |xs|
    ensures |Collect(xs, f).value| == 2 * |xs|
    ensures f(xs[i]) == Ok(Collect(xs, f).value[2 * i .. 2 * i + 2])
  {
    CollectPairsLength(xs, f);
    var first := f(xs[0]).value;
    var rest := Collect(xs[1..], f).value;
    var all := first + rest;
    assert Collect(xs, f).value == all;
    if i == 0 {
      assert all[0 .. 2] == first;
    } else {
      CollectPairsAt(xs[1..], f, i - 1);
      assert xs[i] == xs[1..][i - 1];
      assert all[2 * i .. 2 * i + 2] == rest[2 * (i - 1) .. 2 * (i - 1) + 2];
    }
  }
}
