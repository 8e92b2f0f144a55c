/** The Python string primitives the prepared-statement layer builds its SQL
    with: `sep.join(xs)`, `str.format` with automatically numbered fields,
    `'%d' % i`, and their reference partners (split, decimal parsing,
    character counts) against which their results are stated. */
module Text {
  import opened Errors

  /** `sep.join(xs)`. */
  function Join(sep: string, xs: seq<string>): string
    decreases |xs|
  {
    if |xs| == 0 then ""
    else if |xs| == 1 then xs[0]
    else xs[0] + sep + Join(sep, xs[1..])
  }

  /** `s.split(sep)` for a one-character separator: the inverse of Join. */
  function Split(sep: char, s: string): (r: seq<string>)
    ensures |r| >= 1
    decreases |s|
  {
    if s == [] then [""]
    else
      var rest := Split(sep, s[1..]);
      if s[0] == sep then [""] + rest
      else [[s[0]] + rest[0]] + rest[1..]
  }

  /** Splitting text that starts with a separator-free piece `a` glues `a`
      to the first field of the rest. */
  lemma {:induction false} SplitFreePrefix(sep: char, a: string, t: string)
    requires sep !in a
    ensures Split(sep, a + t) == [a + Split(sep, t)[0]] + Split(sep, t)[1..]
    decreases |a|
  {
    var s := Split(sep, t);
    if a == [] {
      assert a + t == t;
      assert a + s[0] == s[0];
      assert [a + s[0]] + s[1..] == s;
    } else {
      assert (a + t)[0] == a[0];
      assert (a + t)[1..] == a[1..] + t;
      SplitFreePrefix(sep, a[1..], t);
      assert [a[0]] + (a[1..] + s[0]) == a + s[0];
    }
  }

  /** Joining separator-free pieces and splitting again gives the pieces back. */
  lemma {:induction false} SplitJoin(sep: char, xs: seq<string>)
    requires |xs| >= 1
    requires forall i | 0 <= i < |xs| :: sep !in xs[i]
    ensures Split(sep, Join([sep], xs)) == xs
    decreases |xs|
  {
    if |xs| == 1 {
      SplitFreePrefix(sep, xs[0], "");
      assert xs[0] + "" == xs[0];
    } else {
      var j := Join([sep], xs[1..]);
      SplitJoin(sep, xs[1..]);
      assert Join([sep], xs) == xs[0] + ([sep] + j);
      assert Split(sep, [sep] + j) == [""] + xs[1..] by {
        assert ([sep] + j)[1..] == j;
      }
      SplitFreePrefix(sep, xs[0], [sep] + j);
      assert xs[0] + "" == xs[0];
    }
  }

  /** `[x for _ in range(k)]`. */
  function Repeat(x: string, k: nat): (r: seq<string>)
    decreases k
  {
    if k == 0 then [] else [x] + Repeat(x, k - 1)
  }

  /** The number of occurrences of `c` in `s`. */
  function CountChar(c: char, s: string): nat
    decreases |s|
  {
    if s == [] then 0 else (if s[0] == c then 1 else 0) + CountChar(c, s[1..])
  }

  lemma {:induction false} CountCharConcat(c: char, a: string, b: string)
    ensures CountChar(c, a + b) == CountChar(c, a) + CountChar(c, b)
    decreases |a|
  {
    if a == [] {
      assert a + b == b;
    } else {
      assert (a + b)[1..] == a[1..] + b;
      CountCharConcat(c, a[1..], b);
    }
  }

  lemma {:induction false} RepeatFacts(x: string, k: nat)
    ensures |Repeat(x, k)| == k
    ensures forall i | 0 <= i < k :: Repeat(x, k)[i] == x
    decreases k
  {
    if k > 0 { RepeatFacts(x, k - 1); }
  }

  /** A character that does not occur is counted zero times. */
  lemma {:induction false} CountCharAbsent(c: char, s: string)
    requires c !in s
    ensures CountChar(c, s) == 0
    decreases |s|
  {
    if s != [] {
      assert forall x | x in s[1..] :: x in s;
      CountCharAbsent(c, s[1..]);
    }
  }

  /** Characters absent from a frame are counted in its middle only. */
  lemma CountCharFrame(c: char, head: string, inner: string, tail: string)
    requires c !in head && c !in tail
    ensures CountChar(c, head + inner + tail) == CountChar(c, inner)
  {
    CountCharAbsent(c, head);
    CountCharAbsent(c, tail);
    CountCharConcat(c, head, inner);
    CountCharConcat(c, head + inner, tail);
  }

  /** `','.join('%s' for _ in range(k))`: k driver placeholders. */
  function Placeholders(k: nat): string
  {
    Join(",", Repeat("%s", k))
  }

  /** `','.join('%s' for _ in range(k))` holds exactly k '%' characters,
      one per driver placeholder. */
  lemma {:induction false} PercentPlaceholders(k: nat)
    ensures CountChar('%', Placeholders(k)) == k
    decreases k
  {
    if k == 1 {
      assert Join(",", Repeat("%s", 1)) == "%s";
    } else if k >= 2 {
      var rest := Repeat("%s", k - 1);
      assert Repeat("%s", k)[1..] == rest;
      PercentPlaceholders(k - 1);
      CountCharConcat('%', "%s" + ",", Join(",", rest));
      assert CountChar('%', "%s,") == 1;
    }
  }

  /** k placeholders take 3k - 1 characters and split back into k `%s`
      entries. */
  lemma PlaceholdersShape(k: nat)
    requires k > 0
    ensures |Placeholders(k)| == 3 * k - 1
    ensures Split(',', Placeholders(k)) == Repeat("%s", k)
  {
    RepeatFacts("%s", k);
    PlaceholdersLength(k);
    SplitJoin(',', Repeat("%s", k));
  }

  lemma {:induction false} PlaceholdersLength(k: nat)
    requires k > 0
    ensures |Placeholders(k)| == 3 * k - 1
    decreases k
  {
    if k > 1 {
      PlaceholdersLength(k - 1);
      assert Repeat("%s", k)[1..] == Repeat("%s", k - 1);
    }
  }

  predicate IsDigit(c: char) { '0' <= c <= '9' }

  predicate AllDigits(s: string) { forall i | 0 <= i < |s| :: IsDigit(s[i]) }

  function DigitChar(d: nat): char
    requires d < 10
  {
    ('0' as int + d) as char
  }

  /** `str(n)` for a natural number. */
  function NatToDecimal(n: nat): string
    decreases n
  {
    if n < 10 then [DigitChar(n)] else NatToDecimal(n / 10) + [DigitChar(n % 10)]
  }

  /** `int(s)` for a string of decimal digits: the inverse of NatToDecimal. */
  function ParseDecimal(s: string): nat
    requires AllDigits(s)
    decreases |s|
  {
    if s == [] then 0
    else
      assert IsDigit(s[|s| - 1]);
      10 * ParseDecimal(s[..|s| - 1]) + (s[|s| - 1] as int - '0' as int)
  }

  lemma {:induction false} DecimalRoundTrip(n: nat)
    ensures |NatToDecimal(n)| >= 1 && AllDigits(NatToDecimal(n))
    ensures ParseDecimal(NatToDecimal(n)) == n
    decreases n
  {
    if n >= 10 {
      DecimalRoundTrip(n / 10);
      var s := NatToDecimal(n);
      assert s[..|s| - 1] == NatToDecimal(n / 10);
    }
  }

  /** `'%d' % i`. */
  function IntToDecimal(i: int): string
  {
    if i < 0 then "-" + NatToDecimal(-i) else NatToDecimal(i)
  }

  /** `int(s)` for an optionally signed decimal numeral. */
  function ParseInt(s: string): int
    requires |s| >= 1
    requires s[0] == '-' ==> AllDigits(s[1..])
    requires s[0] != '-' ==> AllDigits(s)
  {
    if s[0] == '-' then -(ParseDecimal(s[1..]) as int) else ParseDecimal(s) as int
  }

  lemma IntDecimalRoundTrip(i: int)
    ensures |IntToDecimal(i)| >= 1
    ensures IntToDecimal(i)[0] == '-' <==> i < 0
    ensures i < 0 ==> AllDigits(IntToDecimal(i)[1..])
    ensures i >= 0 ==> AllDigits(IntToDecimal(i))
    ensures ParseInt(IntToDecimal(i)) == i
  {
    if i < 0 {
      DecimalRoundTrip(-i);
      assert IntToDecimal(i)[1..] == NatToDecimal(-i);
    } else {
      DecimalRoundTrip(i);
    }
  }

  predicate BraceFree(s: string) { forall i | 0 <= i < |s| :: s[i] != '{' && s[i] != '}' }

  function Prefixed(p: string, r: Result<string>): Result<string>
  {
    if r.Success? then Success(p + r.value) else r
  }

  /** `template.format(*args)` where the replacement fields are the
      automatically numbered `{}`; `next` is the number of fields already
      consumed. `{{` and `}}` are escapes; an unmatched `}` and a `{` that
      does not open `{}` or `{{` are errors. */
  function FormatAuto(template: string, args: seq<string>, next: nat): (r: Result<string>)
    ensures r.Failure? ==> r.error == IndexError || r.error == FormatError
    decreases |template|
  {
    if template == [] then Success("")
    else if template[0] == '{' then
      if |template| >= 2 && template[1] == '{' then Prefixed("{", FormatAuto(template[2..], args, next))
      else if |template| >= 2 && template[1] == '}' then
        if next < |args| then Prefixed(args[next], FormatAuto(template[2..], args, next + 1))
        else Failure(IndexError)
      else Failure(FormatError)
    else if template[0] == '}' then
      if |template| >= 2 && template[1] == '}' then Prefixed("}", FormatAuto(template[2..], args, next))
      else Failure(FormatError)
    else Prefixed([template[0]], FormatAuto(template[1..], args, next))
  }

  /** The number of `{}` fields in a template, escapes skipped. */
  function MarkerCount(s: string): nat
    decreases |s|
  {
    if |s| >= 2 && ((s[0] == '{' && s[1] == '{') || (s[0] == '}' && s[1] == '}')) then MarkerCount(s[2..])
    else if |s| >= 2 && s[0] == '{' && s[1] == '}' then 1 + MarkerCount(s[2..])
    else if s == [] then 0
    else MarkerCount(s[1..])
  }

  /** A template that formats successfully never has more `{}` fields than
      there are arguments left. */
  lemma {:induction false} FormatNeedsArguments(template: string, args: seq<string>, next: nat)
    requires next <= |args|
    requires FormatAuto(template, args, next).Success?
    ensures next + MarkerCount(template) <= |args|
    decreases |template|
  {
    if template == [] {
    } else if template[0] == '{' && |template| >= 2 && template[1] == '{' {
      FormatNeedsArguments(template[2..], args, next);
    } else if template[0] == '{' && |template| >= 2 && template[1] == '}' {
      FormatNeedsArguments(template[2..], args, next + 1);
    } else if template[0] == '}' && |template| >= 2 && template[1] == '}' {
      FormatNeedsArguments(template[2..], args, next);
    } else {
      FormatNeedsArguments(template[1..], args, next);
    }
  }

  /** Text without braces passes through format unchanged. */
  lemma {:induction false} FormatBraceFree(p: string, t: string, args: seq<string>, next: nat)
    requires BraceFree(p)
    ensures FormatAuto(p + t, args, next) == Prefixed(p, FormatAuto(t, args, next))
    decreases |p|
  {
    if p == [] {
      assert p + t == t;
      var r := FormatAuto(t, args, next);
      if r.Success? {
        assert p + r.value == r.value;
      }
    } else {
      assert (p + t)[0] == p[0];
      assert (p + t)[1..] == p[1..] + t;
      FormatBraceFree(p[1..], t, args, next);
      var r := FormatAuto(t, args, next);
      if r.Success? {
        assert [p[0]] + (p[1..] + r.value) == p + r.value;
      }
    }
  }

  /** `parts[0] + args[0] + parts[1] + ... + args[n-1] + parts[n]`. */
  function Splice(parts: seq<string>, args: seq<string>): string
    requires |parts| == |args| + 1
    decreases |args|
  {
    if |args| == 0 then parts[0] else parts[0] + args[0] + Splice(parts[1..], args[1..])
  }

  /** Formatting brace-free pieces joined by `{}`, followed by any text `t`,
      fills the k-th field with the k-th remaining argument, left to right,
      and then goes on with `t`. */
  lemma {:induction false} FormatMarkers(parts: seq<string>, t: string, args: seq<string>, next: nat)
    requires |parts| >= 1
    requires forall i | 0 <= i < |parts| :: BraceFree(parts[i])
    requires next + |parts| - 1 <= |args|
    ensures FormatAuto(Join("{}", parts) + t, args, next) ==
      Prefixed(Splice(parts, args[next..next + |parts| - 1]), FormatAuto(t, args, next + |parts| - 1))
    decreases |parts|
  {
    var ft := FormatAuto(t, args, next + |parts| - 1);
    if |parts| == 1 {
      FormatBraceFree(parts[0], t, args, next);
    } else {
      var rest := Join("{}", parts[1..]);
      assert Join("{}", parts) + t == parts[0] + ("{}" + (rest + t));
      FormatBraceFree(parts[0], "{}" + (rest + t), args, next);
      FormatField(rest + t, args, next);
      FormatMarkers(parts[1..], t, args, next + 1);
      var used := args[next..next + |parts| - 1];
      var tail := Splice(parts[1..], args[next + 1..next + 1 + |parts[1..]| - 1]);
      assert used[1..] == args[next + 1..next + 1 + |parts[1..]| - 1];
      assert Splice(parts, used) == parts[0] + (args[next] + tail);
      assert FormatAuto(rest + t, args, next + 1) == Prefixed(tail, ft);
      PrefixedTwice(args[next], tail, ft);
      PrefixedTwice(parts[0], args[next] + tail, ft);
    }
  }

  /** A `{}` field at the front takes the next argument. */
  lemma FormatField(x: string, args: seq<string>, next: nat)
    requires next < |args|
    ensures FormatAuto("{}" + x, args, next) == Prefixed(args[next], FormatAuto(x, args, next + 1))
  {
    assert ("{}" + x)[2..] == x;
  }

  lemma PrefixedTwice(p: string, q: string, r: Result<string>)
    ensures Prefixed(p, Prefixed(q, r)) == Prefixed(p + q, r)
  {
    if r.Success? {
      assert p + (q + r.value) == p + q + r.value;
    }
  }

  /** Formatting fails with IndexError when the `{}` fields outnumber the
      arguments left. */
  lemma {:induction false} FormatTooFewArguments(parts: seq<string>, t: string, args: seq<string>, next: nat)
    requires |parts| >= 1
    requires forall i | 0 <= i < |parts| :: BraceFree(parts[i])
    requires next <= |args| < next + |parts| - 1
    ensures FormatAuto(Join("{}", parts) + t, args, next) == Failure(IndexError)
    decreases |parts|
  {
    var rest := Join("{}", parts[1..]);
    assert Join("{}", parts) + t == parts[0] + ("{}" + (rest + t));
    FormatBraceFree(parts[0], "{}" + (rest + t), args, next);
    assert ("{}" + (rest + t))[2..] == rest + t;
    if next < |args| {
      FormatTooFewArguments(parts[1..], t, args, next + 1);
    }
  }

  /** Pieces without braces joined by a separator without braces have no
      braces. */
  lemma {:induction false} JoinBraceFree(sep: string, xs: seq<string>)
    requires BraceFree(sep)
    requires forall i | 0 <= i < |xs| :: BraceFree(xs[i])
    ensures BraceFree(Join(sep, xs))
    decreases |xs|
  {
    if |xs| >= 2 {
      JoinBraceFree(sep, xs[1..]);
      var j := Join(sep, xs[1..]);
      assert Join(sep, xs) == xs[0] + sep + j;
      forall i | 0 <= i < |xs[0] + sep + j|
        ensures (xs[0] + sep + j)[i] != '{' && (xs[0] + sep + j)[i] != '}'
      {
        if i < |xs[0]| {
          assert (xs[0] + sep + j)[i] == xs[0][i];
        } else if i < |xs[0]| + |sep| {
          assert (xs[0] + sep + j)[i] == sep[i - |xs[0]|];
        } else {
          assert (xs[0] + sep + j)[i] == j[i - |xs[0]| - |sep|];
        }
      }
    }
  }

  /** `template % tuple(args)` for the `%s` and `%%` conversions: each `%s`
      takes the next argument, `%%` is a literal '%'. Too few arguments and
      arguments left over are TypeErrors; any other conversion, and a '%'
      at the end, are ValueErrors. */
  function PercentFormat(template: string, args: seq<string>): Result<string>
    decreases |template|
  {
    if template == [] then (if args == [] then Success("") else Failure(TypeError))
    else if template[0] != '%' then Prefixed([template[0]], PercentFormat(template[1..], args))
    else if |template| == 1 then Failure(FormatError)
    else if template[1] == '%' then Prefixed("%", PercentFormat(template[2..], args))
    else if template[1] == 's' then
      if args == [] then Failure(TypeError) else Prefixed(args[0], PercentFormat(template[2..], args[1..]))
    else Failure(FormatError)
  }

  /** Text without '%' passes through %-formatting unchanged. */
  lemma {:induction false} PercentFormatFree(p: string, t: string, args: seq<string>)
    requires '%' !in p
    ensures PercentFormat(p + t, args) == Prefixed(p, PercentFormat(t, args))
    decreases |p|
  {
    if p == [] {
      assert p + t == t;
      var r := PercentFormat(t, args);
      if r.Success? {
        assert p + r.value == r.value;
      }
    } else {
      assert (p + t)[0] == p[0];
      assert (p + t)[1..] == p[1..] + t;
      assert '%' !in p[1..] by {
        assert forall x | x in p[1..] :: x in p;
      }
      PercentFormatFree(p[1..], t, args);
      var r := PercentFormat(t, args);
      if r.Success? {
        assert [p[0]] + (p[1..] + r.value) == p + r.value;
      }
    }
  }

  /** Pieces without '%' joined by `%s` take the arguments in order, one per
      `%s`, when there are exactly as many arguments as `%s`. */
  lemma {:induction false} PercentFormatSplice(parts: seq<string>, args: seq<string>)
    requires |parts| == |args| + 1
    requires forall i | 0 <= i < |parts| :: '%' !in parts[i]
    ensures PercentFormat(Join("%s", parts), args) == Success(Splice(parts, args))
    decreases |args|
  {
    if |args| == 0 {
      PercentFormatFree(parts[0], "", args);
      assert parts[0] + "" == parts[0];
    } else {
      var rest := Join("%s", parts[1..]);
      assert Join("%s", parts) == parts[0] + ("%s" + rest);
      PercentFormatFree(parts[0], "%s" + rest, args);
      assert ("%s" + rest)[2..] == rest;
      PercentFormatSplice(parts[1..], args[1..]);
      assert PercentFormat("%s" + rest, args) == Prefixed(args[0], Success(Splice(parts[1..], args[1..])));
      assert parts[0] + (args[0] + Splice(parts[1..], args[1..])) == Splice(parts, args);
    }
  }

  /** More `%s` than arguments is a TypeError. */
  lemma {:induction false} PercentFormatTooFew(parts: seq<string>, args: seq<string>)
    requires |parts| > |args| + 1
    requires forall i | 0 <= i < |parts| :: '%' !in parts[i]
    ensures PercentFormat(Join("%s", parts), args) == Failure(TypeError)
    decreases |args|
  {
    var rest := Join("%s", parts[1..]);
    assert Join("%s", parts) == parts[0] + ("%s" + rest);
    PercentFormatFree(parts[0], "%s" + rest, args);
    assert ("%s" + rest)[2..] == rest;
    if args != [] {
      PercentFormatTooFew(parts[1..], args[1..]);
    }
  }

  /** The decimals of 1, 2, ..., n: `tuple(range(1, n + 1))` as str.format
      renders them. */
  function Decimals(n: nat): (r: seq<string>)
  {
    seq(n, i requires 0 <= i => NatToDecimal(i + 1))
  }
}
