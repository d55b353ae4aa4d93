/**
 * The resumable option scanner of getopt.c in its PERMUTE ordering: the
 * in-place exchange of two adjacent blocks of argv, one call of the scanner,
 * and the caller's loop that scans argv to the end.
 */
module Getopt {

  import opened Bytes

  /** One entry of the longopts table; hasArg is 0 (no), 1 (required) or 2 (optional). */
  datatype LongOption = LongOption(name: string, hasArg: nat, hasFlag: bool, val: int)

  /** The arguments of a scan that stay the same from call to call. */
  datatype Spec = Spec(optstring: string, longopts: Option<seq<LongOption>>, longOnly: bool)
  {
    /** PERMUTE ordering, and no "W;" in the option string. */
    ghost predicate Permuting() {
      && (optstring != [] ==> optstring[0] !in {'-', '+'})
      && forall i :: 0 <= i < |optstring| - 1 ==> !(optstring[i] == 'W' && optstring[i + 1] == ';')
    }
  }

  /** What one call returns: -1 (nothing left), or an option code. */
  datatype Answer = Done | Found(code: int)

  predicate NonOption(s: string) {
    s == [] || s[0] != '-' || |s| == 1
  }

  // ---------------------------------------------------------------------
  // Reference definitions: which elements of argv belong to the options.
  // ---------------------------------------------------------------------

  /** Whether a short option takes no argument, an optional one or a required one. */
  datatype ArgKind = Unknown | NoArg | OptionalArg | RequiredArg

  function FirstIndex(s: string, c: char): (i: nat)
    ensures i <= |s|
    ensures i < |s| ==> s[i] == c
    ensures forall j :: 0 <= j < i ==> s[j] != c
  {
    if s == [] || s[0] == c then 0 else
      var k := FirstIndex(s[1..], c);
      assert forall j :: 1 <= j < k + 1 ==> s[j] == s[1..][j - 1];
      k + 1
  }

  function ShortKind(optstring: string, c: char): ArgKind {
    var i := FirstIndex(optstring, c);
    if i == |optstring| || c == ':' then Unknown
    else if i + 1 < |optstring| && optstring[i + 1] == ':' then
      if i + 2 < |optstring| && optstring[i + 2] == ':' then OptionalArg else RequiredArg
    else NoArg
  }

  /** The part of a long option before '='. */
  function LongName(chars: string): string {
    chars[..FirstIndex(chars, '=')]
  }

  datatype Lookup = NotFound | Ambiguous | Hit(index: nat)

  /** The entry chosen for an abbreviated or complete long name. */
  ghost predicate IsLookup(opts: seq<LongOption>, name: string, r: Lookup) {
    match r
    case Hit(k) =>
      && k < |opts|
      && name <= opts[k].name
      && (if opts[k].name == name
          then forall j :: 0 <= j < k ==> opts[j].name != name
          else forall j :: 0 <= j < |opts| && j != k ==> !(name <= opts[j].name))
    case NotFound => forall j :: 0 <= j < |opts| ==> !(name <= opts[j].name)
    case Ambiguous =>
      && (forall j :: 0 <= j < |opts| ==> opts[j].name != name)
      && exists i, j :: 0 <= i < j < |opts| && name <= opts[i].name && name <= opts[j].name
  }

  lemma LookupUnique(opts: seq<LongOption>, name: string, r: Lookup, r': Lookup)
    requires IsLookup(opts, name, r) && IsLookup(opts, name, r')
    ensures r == r'
  {
    if r.Hit? && r'.Hit? {
      assert name <= opts[r.index].name && name <= opts[r'.index].name;
    }
  }

  /** Whether the rest of an option element is looked up among the long options first. */
  predicate TriesLong(spec: Spec, elem: string)
    requires !NonOption(elem)
  {
    && spec.longopts.Some?
    && (|| elem[1] == '-'
        || (spec.longOnly && (|elem| > 2 || elem[1] !in spec.optstring)))
  }

  /** The characters of an option element that follow its initial punctuation. */
  function Body(spec: Spec, elem: string): string
    requires !NonOption(elem)
  {
    if spec.longopts.Some? && elem[1] == '-' then elem[2..] else elem[1..]
  }

  /**
   * Whether the remaining characters of an option element end in an option
   * whose required argument is the next element of argv.
   */
  ghost predicate TakesNext(spec: Spec, elem: string, chars: string)
    requires !NonOption(elem)
    decreases |chars|
  {
    chars != [] &&
    if TriesLong(spec, elem) then
      var opts := spec.longopts.value;
      var name := LongName(chars);
      || (name == chars && exists k: nat :: IsLookup(opts, name, Hit(k)) && opts[k].hasArg == 1)
      || (&& IsLookup(opts, name, NotFound)
          && spec.longOnly && elem[1] != '-' && chars[0] in spec.optstring
          && ShortTakesNext(spec, elem, chars))
    else ShortTakesNext(spec, elem, chars)
  }

  ghost predicate ShortTakesNext(spec: Spec, elem: string, chars: string)
    requires !NonOption(elem) && chars != []
    decreases |chars|, 0
  {
    match ShortKind(spec.optstring, chars[0])
    case RequiredArg => |chars| == 1
    case OptionalArg => false
    case _ => TakesNext(spec, elem, chars[1..])
  }

  /** Options with their arguments, and non-options, each in the order of argv. */
  datatype Parts = Parts(options: seq<string>, others: seq<string>)

  ghost function Split(spec: Spec, args: seq<string>): Parts
    decreases |args|, 1
  {
    if args == [] then Parts([], [])
    else if NonOption(args[0]) then
      var p := Split(spec, args[1..]);
      Parts(p.options, [args[0]] + p.others)
    else if args[0] == "--" then Parts([args[0]], args[1..])
    else SplitGroup(spec, args, Body(spec, args[0]))
  }

  /** Split of arguments that start inside an option element whose unread characters are chars. */
  ghost function SplitGroup(spec: Spec, args: seq<string>, chars: string): Parts
    requires args != [] && !NonOption(args[0])
    decreases |args|, 0
  {
    var g := if TakesNext(spec, args[0], chars) && |args| > 1 then 2 else 1;
    var p := Split(spec, args[g..]);
    Parts(args[..g] + p.options, p.others)
  }

  ghost function SplitFrom(spec: Spec, args: seq<string>, chars: string): Parts
    requires chars != [] ==> args != [] && !NonOption(args[0])
  {
    if chars == [] then Split(spec, args) else SplitGroup(spec, args, chars)
  }

  /** a is a merge of x and y that keeps the order of both. */
  ghost predicate Merge<T(!new)>(a: seq<T>, x: seq<T>, y: seq<T>) {
    if a == [] then x == [] && y == []
    else
      || (x != [] && a[0] == x[0] && Merge(a[1..], x[1..], y))
      || (y != [] && a[0] == y[0] && Merge(a[1..], x, y[1..]))
  }

  lemma {:induction false} MergeIsPermutation<T(!new)>(a: seq<T>, x: seq<T>, y: seq<T>)
    requires Merge(a, x, y)
    ensures multiset(a) == multiset(x) + multiset(y) && |a| == |x| + |y|
  {
    if a != [] {
      assert a == [a[0]] + a[1..];
      if x != [] && a[0] == x[0] && Merge(a[1..], x[1..], y) {
        MergeIsPermutation(a[1..], x[1..], y);
        assert x == [x[0]] + x[1..];
      } else {
        MergeIsPermutation(a[1..], x, y[1..]);
        assert y == [y[0]] + y[1..];
      }
    }
  }

  lemma {:induction false} MergeRight<T(!new)>(y: seq<T>)
    ensures Merge(y, [], y)
  {
    if y != [] { MergeRight(y[1..]); }
  }

  /** The reference split is a stable partition of the arguments. */
  lemma {:induction false} SplitIsMerge(spec: Spec, args: seq<string>)
    ensures Merge(args, Split(spec, args).options, Split(spec, args).others)
    decreases |args|
  {
    if args == [] {
    } else if NonOption(args[0]) {
      SplitIsMerge(spec, args[1..]);
      var p := Split(spec, args[1..]);
      assert ([args[0]] + p.others)[1..] == p.others;
    } else if args[0] == "--" {
      MergeRight(args[1..]);
      assert [args[0]][1..] == [];
    } else {
      var g := if TakesNext(spec, args[0], Body(spec, args[0])) && |args| > 1 then 2 else 1;
      SplitIsMerge(spec, args[g..]);
      var p := Split(spec, args[g..]);
      assert (args[..g] + p.options)[1..] == args[1..g] + p.options;
      if g == 2 {
        assert args[1..][1..] == args[2..];
        assert args[1..2] + p.options == [args[1]] + p.options;
        assert ([args[1]] + p.options)[1..] == p.options;
      } else {
        assert args[1..1] + p.options == p.options;
      }
    }
  }

  // ---------------------------------------------------------------------
  // exchange
  // ---------------------------------------------------------------------

  /** Where element k comes from when the blocks of length len at i and j are swapped. */
  function SwapSource(k: int, i: nat, j: nat, len: nat): int {
    if i <= k < i + len then k - i + j else if j <= k < j + len then k - j + i else k
  }

  /** Where element k comes from when the blocks [b, m) and [m, t) change places. */
  function RotateSource(k: int, b: nat, m: nat, t: nat): int {
    if b <= k < b + t - m then k - b + m else if b + t - m <= k < t then k - (t - m) else k
  }

  ghost predicate Swapped<T>(a: seq<T>, o: seq<T>, i: nat, j: nat, len: nat)
    requires i + len <= j && j + len <= |o|
  {
    |a| == |o| && forall k :: 0 <= k < |o| ==> a[k] == o[SwapSource(k, i, j, len)]
  }

  /** a is o with the blocks [b, m) and [m, t) exchanged. */
  ghost predicate Rotated<T>(a: seq<T>, o: seq<T>, b: nat, m: nat, t: nat)
    requires b <= m <= t <= |o|
  {
    |a| == |o| && forall k :: 0 <= k < |o| ==> a[k] == o[RotateSource(k, b, m, t)]
  }

  lemma RotatedBlocks<T>(a: seq<T>, o: seq<T>, b: nat, m: nat, t: nat)
    requires b <= m <= t <= |o|
    requires Rotated(a, o, b, m, t)
    ensures a == o[..b] + o[m..t] + o[b..m] + o[t..]
  {
  }

  ghost function Rotation<T>(o: seq<T>, b: nat, m: nat, t: nat): (r: seq<T>)
    requires b <= m <= t <= |o|
    ensures Rotated(r, o, b, m, t)
  {
    seq(|o|, k requires 0 <= k < |o| => o[RotateSource(k, b, m, t)])
  }

  lemma RotatedDone<T>(r: seq<T>, a: seq<T>, b: nat, m: nat, t: nat)
    requires b <= m <= t <= |a| && (b == m || m == t) && Rotated(r, a, b, m, t)
    ensures r == a
  {
  }

  lemma RotatedSelf<T>(a: seq<T>, b: nat, t: nat)
    requires b <= t <= |a|
    ensures Rotated(a, a, b, b, t)
  {
  }

  lemma RotatedSuffix<T>(a: seq<T>, o: seq<T>, b: nat, m: nat, t: nat)
    requires b <= m <= t <= |o|
    requires Rotated(a, o, b, m, t)
    ensures |a| == |o| && a[t..] == o[t..]
  {
  }

  /** Swaps the blocks of length len that start at i and j. */
  method SwapBlocks<T>(a: array<T>, i: nat, j: nat, len: nat)
    requires i + len <= j && j + len <= a.Length
    modifies a
    ensures Swapped(a[..], old(a[..]), i, j, len)
  {
    ghost var o := a[..];
    var k := 0;
    while k < len
      invariant 0 <= k <= len
      invariant forall m :: i <= m < i + k ==> a[m] == o[m - i + j]
      invariant forall m :: j <= m < j + k ==> a[m] == o[m - j + i]
      invariant forall m :: 0 <= m < a.Length && !(i <= m < i + k) && !(j <= m < j + k) ==> a[m] == o[m]
    {
      var tem := a[i + k];
      a[i + k] := a[j + k];
      a[j + k] := tem;
      k := k + 1;
    }
  }

  /** After the swap, rotating the smaller range that is left gives the same result. */
  lemma TargetKeptTop<T>(o: seq<T>, s: seq<T>, r: seq<T>, b: nat, m: nat, t: nat)
    requires b <= m <= t <= |o| && m - b <= t - m
    requires Swapped(s, o, b, t - (m - b), m - b)
    requires Rotated(r, o, b, m, t)
    ensures Rotated(r, s, b, m, t - (m - b))
  {
    forall k | 0 <= k < |s| ensures r[k] == s[RotateSource(k, b, m, t - (m - b))] {
      assert r[k] == o[RotateSource(k, b, m, t)];
    }
  }

  lemma TargetKeptBottom<T>(o: seq<T>, s: seq<T>, r: seq<T>, b: nat, m: nat, t: nat)
    requires b <= m <= t <= |o| && t - m <= m - b
    requires Swapped(s, o, b, m, t - m)
    requires Rotated(r, o, b, m, t)
    ensures Rotated(r, s, b + (t - m), m, t)
  {
    forall k | 0 <= k < |s| ensures r[k] == s[RotateSource(k, b + (t - m), m, t)] {
      assert r[k] == o[RotateSource(k, b, m, t)];
    }
  }

  /** The loop of exchange: swaps the shorter block with the far end of the longer one. */
  method Exchange<T>(argv: array<T>, firstNonopt: nat, lastNonopt: nat, optind: nat)
    requires firstNonopt <= lastNonopt <= optind <= argv.Length
    modifies argv
    ensures Rotated(argv[..], old(argv[..]), firstNonopt, lastNonopt, optind)
  {
    hide Rotated, Swapped;
    var bottom, middle, top := firstNonopt, lastNonopt, optind;
    ghost var target := Rotation(argv[..], bottom, middle, top);
    while top > middle && middle > bottom
      invariant firstNonopt <= bottom <= middle <= top <= optind
      invariant Rotated(target, argv[..], bottom, middle, top)
      decreases top - bottom
    {
      ghost var s := argv[..];
      if top - middle > middle - bottom {
        // The bottom block is the short one: swap it with the top part of the top block.
        var len := middle - bottom;
        SwapBlocks(argv, bottom, top - len, len);
        TargetKeptTop(s, argv[..], target, bottom, middle, top);
        top := top - len;
      } else {
        // The top block is the short one: swap it with the bottom part of the bottom block.
        var len := top - middle;
        SwapBlocks(argv, bottom, middle, len);
        TargetKeptBottom(s, argv[..], target, bottom, middle, top);
        bottom := bottom + len;
      }
    }
    RotatedDone(target, argv[..], bottom, middle, top);
  }

  // ---------------------------------------------------------------------
  // Decoding one option of an option element
  // ---------------------------------------------------------------------

  /**
   * The outcome of decoding one option: the code returned, the characters of
   * the element still to be read, how far optind moves, the argument, the new
   * value of optopt and the index of the long option, where they are set.
   */
  datatype Decoded = Decoded(code: int, rest: string, advance: nat, arg: Option<string>,
                             optopt: Option<int>, longind: Option<nat>)

  function MissingArg(spec: Spec): int {
    if spec.optstring != [] && spec.optstring[0] == ':' then ':' as int else '?' as int
  }

  function ShortResult(spec: Spec, chars: string, next: Option<string>): Decoded
    requires chars != []
  {
    var c, tail := chars[0], chars[1..];
    var advance := if tail == [] then 1 else 0;
    match ShortKind(spec.optstring, c)
    case Unknown => Decoded('?' as int, tail, advance, None, Some(c as int), None)
    case NoArg => Decoded(c as int, tail, advance, None, None, None)
    case OptionalArg => Decoded(c as int, [], 1, if tail == [] then None else Some(tail), None, None)
    case RequiredArg =>
      if tail != [] then Decoded(c as int, [], 1, Some(tail), None, None)
      else if next.None? then Decoded(MissingArg(spec), [], 1, None, Some(c as int), None)
      else Decoded(c as int, [], 2, next, None, None)
  }

  function LongResult(spec: Spec, elem: string, chars: string, next: Option<string>, r: Lookup): Decoded
    requires chars != [] && !NonOption(elem) && spec.longopts.Some?
    requires r.Hit? ==> r.index < |spec.longopts.value|
  {
    match r
    case Ambiguous => Decoded('?' as int, [], 1, None, Some(0), None)
    case NotFound =>
      if !spec.longOnly || elem[1] == '-' || chars[0] !in spec.optstring
      then Decoded('?' as int, [], 1, None, Some(0), None)
      else ShortResult(spec, chars, next)
    case Hit(k) =>
      var o := spec.longopts.value[k];
      var code := if o.hasFlag then 0 else o.val;
      var name := LongName(chars);
      if name != chars then
        if o.hasArg == 0 then Decoded('?' as int, [], 1, None, Some(o.val), None)
        else Decoded(code, [], 1, Some(chars[|name| + 1..]), None, Some(k))
      else if o.hasArg == 1 then
        if next.None? then Decoded(MissingArg(spec), [], 1, None, Some(o.val), None)
        else Decoded(code, [], 2, next, None, Some(k))
      else Decoded(code, [], 1, None, None, Some(k))
  }

  /** d is the outcome of decoding the next option of elem, of which chars is unread. */
  ghost predicate Decodes(spec: Spec, elem: string, chars: string, next: Option<string>, d: Decoded)
    requires chars != [] && !NonOption(elem)
  {
    if TriesLong(spec, elem)
    then exists r :: IsLookup(spec.longopts.value, LongName(chars), r) && d == LongResult(spec, elem, chars, next, r)
    else d == ShortResult(spec, chars, next)
  }

  ghost function Next(args: seq<string>): Option<string> {
    if |args| > 1 then Some(args[1]) else None
  }

  /**
   * d is what a call decodes from the unread arguments args: the next option
   * of the element being read, or the first option of the first element that
   * is not a non-option. The call moves past n arguments.
   */
  ghost predicate Reads(spec: Spec, args: seq<string>, chars: string, d: Decoded, n: int) {
    if chars != [] then args != [] && !NonOption(args[0]) && Decodes(spec, args[0], chars, Next(args), d) && n == d.advance
    else exists k :: 0 <= k < |args| && ReadsAt(spec, args, k, d) && n == k + d.advance
  }

  ghost predicate ReadsAt(spec: Spec, args: seq<string>, k: nat, d: Decoded)
    requires k < |args|
  {
    && (forall j :: 0 <= j < k ==> NonOption(args[j]))
    && !NonOption(args[k]) && args[k] != "--"
    && Body(spec, args[k]) != []
    && Decodes(spec, args[k], Body(spec, args[k]), Next(args[k..]), d)
  }

  lemma ReadsHere(spec: Spec, a: seq<string>, i: nat, chars: string, a': seq<string>, k: nat, chars': string, d: Decoded)
    requires i <= k < |a| == |a'| && !NonOption(a'[k]) && chars' != []
    requires forall j :: i <= j < |a| ==> a[j] == a'[j]
    requires Decodes(spec, a'[k], chars', Next(a'[k..]), d)
    requires chars != [] ==> i == k && chars' == chars
    requires chars == [] ==> a'[k] != "--" && chars' == Body(spec, a'[k])
    requires chars == [] ==> forall j :: i <= j < k ==> NonOption(a'[j])
    ensures Reads(spec, a[i..], chars, d, k + d.advance - i)
  {
    assert a'[k..] == a[i..][k - i..];
    if chars == [] {
      assert ReadsAt(spec, a[i..], k - i, d);
    } else {
      assert a[i..][0..] == a[i..];
    }
  }

  // ---------------------------------------------------------------------
  // All options of a command line
  // ---------------------------------------------------------------------

  /**
   * ds are the options of args in their order, where chars is what is unread of
   * the first element: those of each option element up to "--", with the
   * elements that are their arguments passed over.
   */
  ghost predicate Options(spec: Spec, args: seq<string>, chars: string, ds: seq<Decoded>)
    decreases |ds|, |args|, if chars == [] then 1 else 0
  {
    if chars != [] then
      && ds != [] && args != [] && !NonOption(args[0]) && Decodes(spec, args[0], chars, Next(args), ds[0])
      && ds[0].advance <= |args| && Options(spec, args[ds[0].advance..], ds[0].rest, ds[1..])
    else if args == [] || args[0] == "--" then ds == []
    else if NonOption(args[0]) then Options(spec, args[1..], [], ds)
    else Body(spec, args[0]) != [] && Options(spec, args, Body(spec, args[0]), ds)
  }

  lemma DecodesUnique(spec: Spec, elem: string, chars: string, next: Option<string>, d: Decoded, d': Decoded)
    requires chars != [] && !NonOption(elem) && Decodes(spec, elem, chars, next, d) && Decodes(spec, elem, chars, next, d')
    ensures d == d'
  {
    hide LongResult, ShortResult;
    if TriesLong(spec, elem) {
      var r :| IsLookup(spec.longopts.value, LongName(chars), r) && d == LongResult(spec, elem, chars, next, r);
      var r' :| IsLookup(spec.longopts.value, LongName(chars), r') && d' == LongResult(spec, elem, chars, next, r');
      LookupUnique(spec.longopts.value, LongName(chars), r, r');
    }
  }

  /** A command line has one list of options. */
  lemma {:induction false} OptionsUnique(spec: Spec, args: seq<string>, chars: string, ds: seq<Decoded>, ds': seq<Decoded>)
    requires Options(spec, args, chars, ds) && Options(spec, args, chars, ds')
    ensures ds == ds'
    decreases |ds|, |args|, if chars == [] then 1 else 0
  {
    hide Decodes, Body, NonOption;
    if chars != [] {
      DecodesUnique(spec, args[0], chars, Next(args), ds[0], ds'[0]);
      OptionsUnique(spec, args[ds[0].advance..], ds[0].rest, ds[1..], ds'[1..]);
      assert ds == [ds[0]] + ds[1..] && ds' == [ds'[0]] + ds'[1..];
    } else if args != [] && args[0] != "--" {
      if NonOption(args[0]) {
        OptionsUnique(spec, args[1..], [], ds, ds');
      } else {
        OptionsUnique(spec, args, Body(spec, args[0]), ds, ds');
      }
    }
  }

  lemma {:induction false} OptionsSkip(spec: Spec, args: seq<string>, k: nat, ds: seq<Decoded>)
    requires k <= |args| && (forall j :: 0 <= j < k ==> NonOption(args[j])) && Options(spec, args[k..], [], ds)
    ensures Options(spec, args, [], ds)
    decreases k
  {
    hide Decodes, Body;
    if k == 0 {
      assert args[0..] == args;
    } else {
      assert args[1..][k - 1..] == args[k..];
      OptionsSkip(spec, args[1..], k - 1, ds);
    }
  }

  lemma NoOptions(spec: Spec, args: seq<string>, k: nat)
    requires k <= |args| && (forall j :: 0 <= j < k ==> NonOption(args[j])) && (k == |args| || args[k] == "--")
    ensures Options(spec, args, [], [])
  {
    OptionsSkip(spec, args, k, []);
  }

  /** What one call reads is the first option of those left. */
  lemma ReadsFirst(spec: Spec, args: seq<string>, chars: string, d: Decoded, n: int, ds: seq<Decoded>)
    requires Reads(spec, args, chars, d, n) && 0 <= n <= |args| && Options(spec, args[n..], d.rest, ds)
    ensures Options(spec, args, chars, [d] + ds)
  {
    hide Decodes, Body, NonOption;
    assert ([d] + ds)[1..] == ds;
    if chars == [] {
      var k :| 0 <= k < |args| && ReadsAt(spec, args, k, d) && n == k + d.advance;
      assert args[k..][d.advance..] == args[n..];
      assert Options(spec, args[k..], Body(spec, args[k]), [d] + ds);
      OptionsSkip(spec, args, k, [d] + ds);
    }
  }

  /** The options of args begin with done, and go on with those of rest. */
  ghost predicate Continues(spec: Spec, args: seq<string>, done: seq<Decoded>, rest: seq<string>, chars: string) {
    forall ds :: Options(spec, rest, chars, ds) ==> Options(spec, args, [], done + ds)
  }

  lemma ContinuesStep(spec: Spec, args: seq<string>, done: seq<Decoded>, rest: seq<string>, chars: string, d: Decoded, n: int)
    requires Continues(spec, args, done, rest, chars) && Reads(spec, rest, chars, d, n) && 0 <= n <= |rest|
    ensures Continues(spec, args, done + [d], rest[n..], d.rest)
  {
    hide Options, Reads;
    forall ds | Options(spec, rest[n..], d.rest, ds) ensures Options(spec, args, [], done + [d] + ds) {
      ReadsFirst(spec, rest, chars, d, n, ds);
      assert done + ([d] + ds) == done + [d] + ds;
    }
  }

  lemma ContinuesStart(spec: Spec, args: seq<string>)
    ensures Continues(spec, args, [], args, [])
  {
    hide Options;
    forall ds | Options(spec, args, [], ds) ensures Options(spec, args, [], [] + ds) { assert [] + ds == ds; }
  }

  lemma ContinuesEnd(spec: Spec, args: seq<string>, done: seq<Decoded>, rest: seq<string>, chars: string)
    requires Continues(spec, args, done, rest, chars) && Options(spec, rest, chars, [])
    ensures Options(spec, args, [], done)
  {
    hide Options;
    assert done + [] == done;
  }

  /** Decoding one option leaves the split of the arguments as the reference has it. */
  lemma DecodeFollowsSplit(spec: Spec, args: seq<string>, chars: string, d: Decoded)
    requires args != [] && !NonOption(args[0]) && chars != []
    requires Decodes(spec, args[0], chars, Next(args), d)
    ensures d.advance <= |args|
    ensures d.rest != [] ==> d.advance == 0 && |d.rest| < |chars|
    ensures d.rest == [] ==> 1 <= d.advance <= 2
    ensures var p := SplitFrom(spec, args[d.advance..], d.rest);
            SplitGroup(spec, args, chars) == Parts(args[..d.advance] + p.options, p.others)
  {
    if d.rest != [] {
      assert d == ShortResult(spec, chars, Next(args)) by { ShortWhenRest(spec, args[0], chars, Next(args), d); }
      assert d.rest == chars[1..] && ShortKind(spec.optstring, chars[0]) in {Unknown, NoArg};
      TakesNextTail(spec, args[0], chars, Next(args), d);
      assert args[0..] == args;
      assert args[..0] == [];
    } else {
      TakesNextLast(spec, args, chars, d);
    }
  }

  lemma ShortWhenRest(spec: Spec, elem: string, chars: string, next: Option<string>, d: Decoded)
    requires !NonOption(elem) && chars != []
    requires Decodes(spec, elem, chars, next, d) && d.rest != []
    ensures d == ShortResult(spec, chars, next)
  {
  }

  lemma TakesNextTail(spec: Spec, elem: string, chars: string, next: Option<string>, d: Decoded)
    requires !NonOption(elem) && chars != []
    requires Decodes(spec, elem, chars, next, d) && d.rest != []
    ensures TakesNext(spec, elem, chars) == TakesNext(spec, elem, d.rest)
  {
    if TriesLong(spec, elem) {
      var r :| IsLookup(spec.longopts.value, LongName(chars), r) && d == LongResult(spec, elem, chars, next, r);
      assert r == NotFound;
      assert !exists k: nat :: IsLookup(spec.longopts.value, LongName(chars), Hit(k));
    }
  }

  lemma TakesNextLast(spec: Spec, args: seq<string>, chars: string, d: Decoded)
    requires args != [] && !NonOption(args[0]) && chars != []
    requires Decodes(spec, args[0], chars, Next(args), d) && d.rest == []
    ensures d.advance == if TakesNext(spec, args[0], chars) && |args| > 1 then 2 else 1
  {
    if TriesLong(spec, args[0]) {
      var opts, name := spec.longopts.value, LongName(chars);
      var r :| IsLookup(opts, name, r) && d == LongResult(spec, args[0], chars, Next(args), r);
      forall k: nat | IsLookup(opts, name, Hit(k)) ensures r == Hit(k) {
        LookupUnique(opts, name, r, Hit(k));
      }
      match r
      case Hit(k) =>
        assert !IsLookup(opts, name, NotFound) by {
          if IsLookup(opts, name, NotFound) { LookupUnique(opts, name, r, NotFound); }
        }
      case Ambiguous =>
        assert !IsLookup(opts, name, NotFound) by {
          if IsLookup(opts, name, NotFound) { LookupUnique(opts, name, r, NotFound); }
        }
      case NotFound =>
        assert !exists k: nat :: IsLookup(opts, name, Hit(k));
        ShortLast(spec, args[0], chars);
    } else {
      ShortLast(spec, args[0], chars);
    }
  }

  lemma ShortLast(spec: Spec, elem: string, chars: string)
    requires !NonOption(elem) && chars != []
    ensures ShortResult(spec, chars, None).rest == [] ==>
              ShortTakesNext(spec, elem, chars) == (|chars| == 1 && ShortKind(spec.optstring, chars[0]) == RequiredArg)
  {
    assert |chars| == 1 ==> !TakesNext(spec, elem, chars[1..]);
  }

  // ---------------------------------------------------------------------
  // The scan invariant
  // ---------------------------------------------------------------------

  /**
   * Between calls: everything before optind has been permuted so that the
   * non-options skipped so far are [first, last), and what is at optind and
   * after is still as it was; together they make up the reference split.
   */
  ghost predicate Scanning(spec: Spec, orig: seq<string>, start: nat,
                           a: seq<string>, first: nat, last: nat, optind: nat, chars: string)
  {
    && start <= first <= last <= optind <= |a| == |orig|
    && a[..start] == orig[..start]
    && (chars != [] ==> optind < |a| && !NonOption(a[optind]))
    && var p := SplitFrom(spec, a[optind..], chars);
       Split(spec, orig[start..]) ==
         Parts(a[start..first] + a[last..optind] + p.options, a[first..last] + p.others)
  }

  lemma ScanBounds(spec: Spec, orig: seq<string>, start: nat,
                   a: seq<string>, first: nat, last: nat, optind: nat, chars: string)
    requires Scanning(spec, orig, start, a, first, last, optind, chars)
    ensures start <= first <= last <= optind <= |a| == |orig|
    ensures chars != [] ==> optind < |a| && !NonOption(a[optind])
  {
  }

  lemma ScanStarts(spec: Spec, orig: seq<string>, start: nat)
    requires start <= |orig|
    ensures Scanning(spec, orig, start, orig, start, start, start, [])
  {
    assert orig[start..start] == [];
  }

  lemma ScanExchange(spec: Spec, orig: seq<string>, start: nat, a: seq<string>, first: nat, last: nat,
                     optind: nat, chars: string, r: seq<string>)
    requires Scanning(spec, orig, start, a, first, last, optind, chars)
    requires Rotated(r, a, first, last, optind)
    ensures Scanning(spec, orig, start, r, first + (optind - last), optind, optind, chars)
  {
    hide Rotated, Split, SplitGroup, NonOption;
    var first' := first + (optind - last);
    RotatedParts(r, a, start, first, last, optind);
    assert r[optind..optind] == [];
    assert r[start..first'] + r[optind..optind] == r[start..first'];
    assert optind < |a| ==> r[optind..][0] == r[optind] && a[optind..][0] == a[optind];
  }

  lemma RotatedParts<T>(r: seq<T>, a: seq<T>, start: nat, first: nat, last: nat, optind: nat)
    requires start <= first <= last <= optind <= |a| && Rotated(r, a, first, last, optind)
    ensures var first' := first + (optind - last);
            && |r| == |a| && r[..start] == a[..start] && r[optind..] == a[optind..]
            && r[start..first'] == a[start..first] + a[last..optind] && r[first'..optind] == a[first..last]
  {
  }

  lemma ScanNoSkipped(spec: Spec, orig: seq<string>, start: nat, a: seq<string>, first: nat,
                      optind: nat, chars: string)
    requires Scanning(spec, orig, start, a, first, first, optind, chars)
    ensures Scanning(spec, orig, start, a, optind, optind, optind, chars)
  {
    assert a[start..optind] == a[start..first] + a[first..optind];
    assert a[start..optind] + a[optind..optind] == a[start..optind];
    assert a[first..first] == a[optind..optind];
  }

  lemma ScanSkip(spec: Spec, orig: seq<string>, start: nat, a: seq<string>, first: nat, optind: nat)
    requires Scanning(spec, orig, start, a, first, optind, optind, [])
    requires optind < |a| && NonOption(a[optind])
    ensures Scanning(spec, orig, start, a, first, optind + 1, optind + 1, [])
  {
    assert a[optind..][1..] == a[optind + 1..];
    var p := Split(spec, a[optind + 1..]);
    assert a[first..optind] + ([a[optind]] + p.others) == a[first..optind + 1] + p.others;
    assert a[optind..optind] == a[optind + 1..optind + 1];
  }

  /** What the caller finds after the scan: options with their arguments, then the rest. */
  ghost predicate Partitioned(spec: Spec, orig: seq<string>, start: nat, a: seq<string>, optind: nat)
    requires start <= |orig|
  {
    var p := Split(spec, orig[start..]);
    a == orig[..start] + p.options + p.others && optind == start + |p.options|
  }

  lemma ScanEnds(spec: Spec, orig: seq<string>, start: nat, a: seq<string>, first: nat)
    requires Scanning(spec, orig, start, a, first, |a|, |a|, [])
    ensures Partitioned(spec, orig, start, a, first)
  {
    var n := |a|;
    assert a[n..] == [] && Split(spec, []) == Parts([], []);
    assert a == a[..start] + a[start..first] + a[first..n];
  }

  lemma ScanDashes(spec: Spec, orig: seq<string>, start: nat, a: seq<string>, first: nat, optind: nat, r: seq<string>)
    requires Scanning(spec, orig, start, a, first, optind, optind, [])
    requires optind < |a| && a[optind] == "--"
    requires Rotated(r, a, first, optind, optind + 1)
    ensures Partitioned(spec, orig, start, r, first + 1)
  {
    hide Split, SplitGroup, Rotated, NonOption;
    DashesSplit(spec, a[optind..]);
    assert a[optind..][1..] == a[optind + 1..];
    RotatedBlocks(r, a, first, optind, optind + 1);
    DashesJoin(a, start, first, optind);
  }

  lemma DashesSplit(spec: Spec, args: seq<string>)
    requires args != [] && args[0] == "--"
    ensures Split(spec, args) == Parts([args[0]], args[1..])
  {
  }

  lemma DashesJoin<T>(a: seq<T>, start: nat, first: nat, optind: nat)
    requires start <= first <= optind < |a|
    ensures a[..first] + a[optind..optind + 1] + a[first..optind] + a[optind + 1..] ==
            a[..start] + (a[start..first] + a[optind..optind] + [a[optind]]) + (a[first..optind] + a[optind + 1..])
  {
    assert a[..first] == a[..start] + a[start..first];
    assert a[optind..optind + 1] == a[optind..optind] + [a[optind]];
  }

  lemma ScanDecoded(spec: Spec, orig: seq<string>, start: nat, a: seq<string>, first: nat, last: nat,
                    optind: nat, chars: string, d: Decoded)
    requires Scanning(spec, orig, start, a, first, last, optind, chars) && chars != []
    requires Decodes(spec, a[optind], chars, Next(a[optind..]), d)
    ensures d.advance <= |a| - optind
    ensures d.rest != [] ==> d.advance == 0 && |d.rest| < |chars|
    ensures d.rest == [] ==> 1 <= d.advance
    ensures Scanning(spec, orig, start, a, first, last, optind + d.advance, d.rest)
  {
    hide Split, SplitGroup, Decodes, NonOption;
    var args := a[optind..];
    DecodeFollowsSplit(spec, args, chars, d);
    assert args[d.advance..] == a[optind + d.advance..];
    assert args[..d.advance] == a[optind..optind + d.advance];
    var p := SplitFrom(spec, args[d.advance..], d.rest);
    AppendRead(a, last, optind, d.advance, a[start..first], p.options);
  }

  lemma AppendRead<T>(a: seq<T>, last: nat, optind: nat, n: nat, front: seq<T>, back: seq<T>)
    requires last <= optind && optind + n <= |a|
    ensures front + a[last..optind] + (a[optind..optind + n] + back) == front + a[last..optind + n] + back
  {
    assert a[last..optind] + a[optind..optind + n] == a[last..optind + n];
  }

  // ---------------------------------------------------------------------
  // The scanner
  // ---------------------------------------------------------------------

  /** What one more entry does to the lookup, if none before it is an exact match. */
  lemma LookupNext(opts: seq<LongOption>, name: string, i: nat, r: Lookup)
    requires i < |opts| && IsLookup(opts[..i], name, r) && forall j :: 0 <= j < i ==> opts[j].name != name
    ensures !(name <= opts[i].name) ==> IsLookup(opts[..i + 1], name, r)
    ensures name < opts[i].name ==> IsLookup(opts[..i + 1], name, if r.NotFound? then Hit(i) else Ambiguous)
  {
    var before, more := opts[..i], opts[..i + 1];
    assert forall j :: 0 <= j < i ==> more[j] == before[j];
    assert more[i] == opts[i];
    if !r.NotFound? {
      var j :| 0 <= j < i && name <= before[j].name;
      assert name <= more[j].name;
    }
  }

  /** The loop over longopts: the first exact match, or the only abbreviation. */
  method FindLong(opts: seq<LongOption>, name: string) returns (r: Lookup)
    ensures IsLookup(opts, name, r)
  {
    r := NotFound;
    var i := 0;
    hide IsLookup;
    NoLookup(name);
    while i < |opts|
      invariant 0 <= i <= |opts|
      invariant IsLookup(opts[..i], name, r)
      invariant forall j :: 0 <= j < i ==> opts[j].name != name
    {
      LookupNext(opts, name, i, r);
      if name <= opts[i].name {
        if |name| == |opts[i].name| {
          ExactLookup(opts, name, i);
          return Hit(i);
        } else if r.NotFound? {
          r := Hit(i);
        } else {
          r := Ambiguous;
        }
      }
      i := i + 1;
    }
    assert opts[..i] == opts;
  }

  lemma LookupBound(opts: seq<LongOption>, name: string, r: Lookup)
    requires IsLookup(opts, name, r)
    ensures r.Hit? ==> r.index < |opts|
  {
  }

  lemma NoLookup(name: string)
    ensures IsLookup([], name, NotFound)
  {
  }

  lemma ExactLookup(opts: seq<LongOption>, name: string, i: nat)
    requires i < |opts| && opts[i].name == name && forall j :: 0 <= j < i ==> opts[j].name != name
    ensures IsLookup(opts, name, Hit(i))
  {
  }

  class Scanner {
    const argv: array<string>
    var optind: nat
    var initialized: bool
    var nextchar: string            // empty stands for the null pointer as well
    var firstNonopt: nat
    var lastNonopt: nat
    var optarg: Option<string>
    var optopt: int
    var longind: Option<nat>
    ghost const orig: seq<string>   // argv before the scan

    constructor (argv: array<string>)
      requires argv.Length >= 1
      ensures this.argv == argv && orig == argv[..] && optind == 1 && !initialized && nextchar == []
    {
      this.argv := argv;
      orig := argv[..];
      optind, initialized, nextchar := 1, false, [];
      firstNonopt, lastNonopt := 0, 0;
      optarg, optopt, longind := None, '?' as int, None;
    }

    ghost predicate InScan(spec: Spec)
      reads this, argv
    {
      && spec.Permuting()
      && initialized && 1 <= |orig|
      && Scanning(spec, orig, 1, argv[..], firstNonopt, lastNonopt, optind, nextchar)
    }

    ghost predicate Valid(spec: Spec)
      reads this, argv
    {
      if initialized then InScan(spec)
      else spec.Permuting() && 1 <= |orig| && argv[..] == orig && optind <= 1 && nextchar == []
    }

    /** Where the next call starts to read. */
    ghost function From(): (k: nat)
      reads this
    {
      if optind == 0 then 1 else optind
    }

    /** Moves the options read since the last skipped non-options in front of those. */
    method Settle(spec: Spec)
      requires InScan(spec) && nextchar == []
      modifies `firstNonopt, argv
      ensures Scanning(spec, orig, 1, argv[..], firstNonopt, optind, optind, [])
      ensures argv[optind..] == old(argv[optind..])
    {
      hide Scanning, Rotated;
      ghost var a := argv[..];
      ScanBounds(spec, orig, 1, a, firstNonopt, lastNonopt, optind, nextchar);
      if firstNonopt != lastNonopt && lastNonopt != optind {
        Exchange(argv, firstNonopt, lastNonopt, optind);
        ScanExchange(spec, orig, 1, a, firstNonopt, lastNonopt, optind, [], argv[..]);
        RotatedSuffix(argv[..], a, firstNonopt, lastNonopt, optind);
        firstNonopt := firstNonopt + (optind - lastNonopt);
      } else if lastNonopt != optind {
        ScanNoSkipped(spec, orig, 1, a, firstNonopt, optind, []);
        firstNonopt := optind;
      }
    }

    /** Skips any further non-options and adds them to those skipped before. */
    method SkipNonOptions(spec: Spec)
      requires spec.Permuting() && initialized && 1 <= |orig| && nextchar == []
      requires Scanning(spec, orig, 1, argv[..], firstNonopt, optind, optind, [])
      modifies `optind, `lastNonopt
      ensures InScan(spec) && old(optind) <= optind == lastNonopt <= argv.Length
      ensures optind < argv.Length ==> !NonOption(argv[optind])
      ensures forall j :: old(optind) <= j < optind ==> NonOption(argv[j])
    {
      hide Scanning;
      ScanBounds(spec, orig, 1, argv[..], firstNonopt, optind, optind, []);
      while optind < argv.Length && NonOption(argv[optind])
        invariant old(optind) <= optind <= argv.Length
        invariant forall j :: old(optind) <= j < optind ==> NonOption(argv[j])
        invariant Scanning(spec, orig, 1, argv[..], firstNonopt, optind, optind, [])
      {
        ScanSkip(spec, orig, 1, argv[..], firstNonopt, optind);
        optind := optind + 1;
      }
      lastNonopt := optind;
    }

    /** "--" counts as an option; everything after it is a non-option. */
    method FinishAtDashes(spec: Spec)
      requires InScan(spec) && nextchar == [] && lastNonopt == optind < argv.Length && argv[optind] == "--"
      modifies this, argv
      ensures Partitioned(spec, orig, 1, argv[..], optind)
    {
      hide Scanning, Partitioned, Rotated;
      ghost var a := argv[..];
      ScanBounds(spec, orig, 1, a, firstNonopt, lastNonopt, optind, []);
      optind := optind + 1;
      if firstNonopt != lastNonopt && lastNonopt != optind {
        Exchange(argv, firstNonopt, lastNonopt, optind);
        ScanDashes(spec, orig, 1, a, firstNonopt, lastNonopt, argv[..]);
        firstNonopt := firstNonopt + (optind - lastNonopt);
        lastNonopt := optind;
      } else if firstNonopt == lastNonopt {
        RotatedSelf(a, firstNonopt, optind);
        ScanDashes(spec, orig, 1, a, firstNonopt, lastNonopt, a);
        firstNonopt := optind;
      }
      lastNonopt := argv.Length;
      optind := argv.Length;
      if firstNonopt != lastNonopt { optind := firstNonopt; }
    }

    /** The part of a call that moves on to the next element of argv. */
    method Advance(spec: Spec) returns (done: bool)
      requires InScan(spec) && nextchar == []
      modifies this, argv
      ensures done ==> Partitioned(spec, orig, 1, argv[..], optind) && Options(spec, old(argv[..])[old(optind)..], [], [])
      ensures !done ==> InScan(spec) && old(optind) <= optind < argv.Length && optopt == old(optopt)
      ensures !done ==> !NonOption(argv[optind]) && argv[optind] != "--" && nextchar == Body(spec, argv[optind])
      ensures !done ==> forall j :: old(optind) <= j < argv.Length ==> argv[j] == old(argv[j])
      ensures !done ==> forall j :: old(optind) <= j < optind ==> NonOption(argv[j])
    {
      hide Scanning, Partitioned, Options;
      ghost var a, k := argv[..], optind;
      ScanBounds(spec, orig, 1, a, firstNonopt, lastNonopt, optind, []);
      Settle(spec);
      SkipNonOptions(spec);
      ScanBounds(spec, orig, 1, argv[..], firstNonopt, lastNonopt, optind, []);
      forall j | k <= j < argv.Length ensures argv[j] == a[j] {
        assert argv[j] == argv[k..][j - k] && a[j] == a[k..][j - k];
      }
      if optind == argv.Length || argv[optind] == "--" { NoOptions(spec, a[k..], optind - k); }
      if optind != argv.Length && argv[optind] == "--" {
        FinishAtDashes(spec);
        return true;
      }
      if optind == argv.Length {
        ScanEnds(spec, orig, 1, argv[..], firstNonopt);
        if firstNonopt != lastNonopt { optind := firstNonopt; }
        return true;
      }
      EnterElement(spec);
      return false;
    }

    method EnterElement(spec: Spec)
      requires InScan(spec) && nextchar == [] && optind < argv.Length
      requires !NonOption(argv[optind]) && argv[optind] != "--"
      modifies `nextchar
      ensures InScan(spec) && nextchar == Body(spec, argv[optind])
    {
      nextchar := Body(spec, argv[optind]);
    }

    /** Looks the option up among the long options; true when the call is answered. */
    method DecodeLong(spec: Spec) returns (handled: bool, code: int, ghost r: Lookup)
      requires InScan(spec) && nextchar != [] && TriesLong(spec, argv[optind])
      modifies `optind, `nextchar, `optarg, `optopt, `longind
      ensures IsLookup(spec.longopts.value, LongName(old(nextchar)), r)
      ensures handled ==>
                Outcome(LongResult(spec, argv[old(optind)], old(nextchar), Next(argv[old(optind)..]), r),
                        code, old(optind), old(optopt))
      ensures !handled ==>
                && unchanged(this)
                && LongResult(spec, argv[optind], nextchar, Next(argv[optind..]), r)
                   == ShortResult(spec, nextchar, Next(argv[optind..]))
    {
      hide IsLookup, ShortResult, Scanning;
      ScanBounds(spec, orig, 1, argv[..], firstNonopt, lastNonopt, optind, nextchar);
      var opts := spec.longopts.value;
      var elem := argv[optind];
      var name := LongName(nextchar);
      var found := FindLong(opts, name);
      LookupBound(opts, name, found);
      r := found;
      if found.Ambiguous? {
        nextchar, optind, optopt, optarg, longind := [], optind + 1, 0, None, None;
        return true, '?' as int, r;
      }
      if found.Hit? {
        var o := opts[found.index];
        optind := optind + 1;
        optarg, longind := None, None;
        if |name| < |nextchar| {
          if o.hasArg != 0 {
            optarg := Some(nextchar[|name| + 1..]);
          } else {
            nextchar, optopt := [], o.val;
            return true, '?' as int, r;
          }
        } else if o.hasArg == 1 {
          if optind < argv.Length {
            optarg := Some(argv[optind]);
            optind := optind + 1;
          } else {
            nextchar, optopt := [], o.val;
            return true, MissingArg(spec), r;
          }
        }
        nextchar, longind := [], Some(found.index);
        return true, if o.hasFlag then 0 else o.val, r;
      }
      if !spec.longOnly || elem[1] == '-' || nextchar[0] !in spec.optstring {
        nextchar, optind, optopt, optarg, longind := [], optind + 1, 0, None, None;
        return true, '?' as int, r;
      }
      return false, 0, r;
    }

    /** The state after a call whose decoding gave d. */
    ghost predicate Outcome(d: Decoded, code: int, optind0: nat, optopt0: int)
      reads this
    {
      && code == d.code && nextchar == d.rest && optind == optind0 + d.advance
      && optarg == d.arg && longind == d.longind
      && optopt == if d.optopt.Some? then d.optopt.value else optopt0
    }

    /** Handles the next short option character. */
    method DecodeShort(spec: Spec) returns (code: int)
      requires nextchar != [] && optind < argv.Length
      modifies `optind, `nextchar, `optarg, `optopt, `longind
      ensures Outcome(ShortResult(spec, old(nextchar), Next(argv[old(optind)..])),
                      code, old(optind), old(optopt))
    {
      var c := nextchar[0];
      nextchar := nextchar[1..];
      optarg, longind := None, None;
      if nextchar == [] { optind := optind + 1; }
      code := c as int;
      match ShortKind(spec.optstring, c)
      case Unknown =>
        optopt := c as int;
        code := '?' as int;
      case NoArg =>
      case OptionalArg =>
        if nextchar != [] {
          optarg := Some(nextchar);
          optind := optind + 1;
        }
        nextchar := [];
      case RequiredArg =>
        if nextchar != [] {
          optarg := Some(nextchar);
          optind := optind + 1;
        } else if optind == argv.Length {
          optopt := c as int;
          code := MissingArg(spec);
        } else {
          optarg := Some(argv[optind]);
          optind := optind + 1;
        }
        nextchar := [];
    }

    /** Decodes one option of the element at optind. */
    method Decode(spec: Spec) returns (code: int, ghost d: Decoded)
      requires InScan(spec) && nextchar != []
      modifies `optind, `nextchar, `optarg, `optopt, `longind
      ensures Decodes(spec, argv[old(optind)], old(nextchar), Next(argv[old(optind)..]), d)
      ensures Outcome(d, code, old(optind), old(optopt))
    {
      ghost var elem, chars, next := argv[optind], nextchar, Next(argv[optind..]);
      if TriesLong(spec, argv[optind]) {
        var handled;
        ghost var r;
        handled, code, r := DecodeLong(spec);
        d := LongResult(spec, elem, chars, next, r);
        if handled { return; }
      } else {
        d := ShortResult(spec, chars, next);
      }
      code := DecodeShort(spec);
    }

    ghost function Unread(): nat
      reads this, argv
    {
      if nextchar != [] then |nextchar| else if optind < argv.Length then |argv[optind]| else 0
    }

    /** The first call of a scan sets it up. */
    method Begin(spec: Spec)
      requires Valid(spec)
      modifies `optind, `initialized, `nextchar, `firstNonopt, `lastNonopt
      ensures InScan(spec) && optind == old(From()) && nextchar == old(nextchar)
    {
      hide Scanning;
      if initialized { ScanBounds(spec, orig, 1, argv[..], firstNonopt, lastNonopt, optind, nextchar); }
      if optind == 0 || !initialized {
        if optind == 0 { optind := 1; }
        firstNonopt, lastNonopt, nextchar := optind, optind, [];
        initialized := true;
        ScanStarts(spec, orig, 1);
      }
    }

    /** Decodes one option of the element at optind, and the scan goes on after it. */
    method DecodeNext(spec: Spec) returns (code: int, ghost d: Decoded)
      requires InScan(spec) && nextchar != []
      modifies `optind, `nextchar, `optarg, `optopt, `longind
      ensures old(optind) < argv.Length && !NonOption(argv[old(optind)])
      ensures Decodes(spec, argv[old(optind)], old(nextchar), Next(argv[old(optind)..]), d)
      ensures InScan(spec) && optind == old(optind) + d.advance <= argv.Length
      ensures code == d.code && optarg == d.arg && longind == d.longind && nextchar == d.rest
      ensures optopt == if d.optopt.Some? then d.optopt.value else old(optopt)
      ensures optind == old(optind) ==> |nextchar| < |old(nextchar)| && nextchar != []
    {
      hide Scanning, Decodes, TakesNext;
      ghost var k, chars := optind, nextchar;
      ScanBounds(spec, orig, 1, argv[..], firstNonopt, lastNonopt, k, chars);
      code, d := Decode(spec);
      ScanDecoded(spec, orig, 1, argv[..], firstNonopt, lastNonopt, k, chars, d);
    }

    /** One call of the scanner. */
    method Call(spec: Spec) returns (r: Answer, ghost d: Decoded)
      requires Valid(spec)
      modifies this, argv
      ensures r.Done? ==> Partitioned(spec, orig, 1, argv[..], optind)
      ensures r.Done? ==> Options(spec, old(argv[..])[old(From())..], old(nextchar), [])
      ensures r.Found? ==> InScan(spec) && (optind == old(optind) ==> Unread() < old(Unread())) && old(From()) <= optind
      ensures r.Found? ==>
                && Reads(spec, old(argv[..])[old(From())..], old(nextchar), d, optind - old(From()))
                && r.code == d.code && optarg == d.arg && longind == d.longind && nextchar == d.rest
                && optopt == if d.optopt.Some? then d.optopt.value else old(optopt)
      ensures r.Found? ==> optind <= argv.Length && argv[optind..] == old(argv[..])[optind..]
    {
      hide Scanning, Partitioned, Decodes, TakesNext, Reads, Options;
      ghost var a0, chars0 := argv[..], nextchar;
      Begin(spec);
      ghost var k0 := optind;
      if nextchar == [] {
        var done := Advance(spec);
        if done { return Done, Decoded(0, [], 0, None, None, None); }
      }
      ghost var a, k, chars := argv[..], optind, nextchar;
      assert forall j :: k0 <= j < argv.Length ==> a[j] == a0[j];
      var code;
      code, d := DecodeNext(spec);
      ReadsHere(spec, a0, k0, chars0, a, k, chars, d);
      return Found(code), d;
    }
  }

  /** What the caller learns from one call; optopt is the last one set. */
  datatype Seen = Seen(code: int, arg: Option<string>, longind: Option<nat>, optopt: int)

  predicate Agrees(seen: Seen, d: Decoded) {
    && seen.code == d.code && seen.arg == d.arg && seen.longind == d.longind
    && (d.optopt.Some? ==> seen.optopt == d.optopt.value)
  }

  /**
   * The caller's loop: scans argv until the scanner answers -1. What it sees
   * are the options of the command line as it was, in their order.
   */
  method ScanAll(argv: array<string>, spec: Spec) returns (optind: nat, seen: seq<Seen>, ghost ds: seq<Decoded>)
    requires argv.Length >= 1 && spec.Permuting()
    modifies argv
    ensures Partitioned(spec, old(argv[..]), 1, argv[..], optind)
    ensures Options(spec, old(argv[..])[1..], [], ds)
    ensures |seen| == |ds| && forall i :: 0 <= i < |ds| ==> Agrees(seen[i], ds[i])
  {
    hide Options, Reads, Continues, Partitioned, Scanning;
    var s := new Scanner(argv);
    ghost var orig := argv[..];
    seen, ds := [], [];
    ContinuesStart(spec, orig[1..]);
    while true
      invariant s.argv == argv && s.orig == orig && fresh(s)
      invariant s.Valid(spec) && 1 <= s.optind <= argv.Length && argv[s.optind..] == orig[s.optind..]
      invariant Continues(spec, orig[1..], ds, orig[s.optind..], s.nextchar)
      invariant |seen| == |ds| && forall i :: 0 <= i < |ds| ==> Agrees(seen[i], ds[i])
      decreases argv.Length - s.optind, s.Unread(), if s.initialized then 0 else 1
    {
      ghost var k, chars := s.optind, s.nextchar;
      ghost var rest := argv[..][k..];
      assert rest == orig[k..];
      var r;
      ghost var d;
      r, d := s.Call(spec);
      if r.Done? {
        ContinuesEnd(spec, orig[1..], ds, rest, chars);
        return s.optind, seen, ds;
      }
      ContinuesStep(spec, orig[1..], ds, rest, chars, d, s.optind - k);
      assert rest[s.optind - k..] == orig[s.optind..];
      seen, ds := seen + [Seen(r.code, s.optarg, s.longind, s.optopt)], ds + [d];
    }
  }

  /**
   * The stable partition, without the reference split: the final argv is a
   * permutation of the original, and the two sides of optind, merged in some
   * way that keeps the order of each, give the original back.
   */
  lemma PartitionIsStable(spec: Spec, orig: seq<string>, a: seq<string>, optind: nat)
    requires 1 <= |orig| && Partitioned(spec, orig, 1, a, optind)
    ensures 1 <= optind <= |a| == |orig| && a[0] == orig[0]
    ensures Merge(orig[1..], a[1..optind], a[optind..])
    ensures multiset(a) == multiset(orig)
  {
    var p := Split(spec, orig[1..]);
    SplitIsMerge(spec, orig[1..]);
    MergeIsPermutation(orig[1..], p.options, p.others);
    assert a[1..optind] == p.options && a[optind..] == p.others;
    assert orig == orig[..1] + orig[1..];
  }
}
