/** Command lines that spell out intended options, and what the scanner of getopt.c makes of them. */
module GetoptRendering {
  import opened Bytes
  import opened Getopt

  // ---------------------------------------------------------------------
  // Intended command lines
  // ---------------------------------------------------------------------

  /** The end of an element of short options: nothing, or an option with its argument, here or in the next element. */
  datatype ShortEnd = NoMore | Attached(c: char, arg: string) | Separate(c: char, arg: string) | Bare(c: char)

  /** The argument of a long option: none, after '=', in the next element, or one it does not take. */
  datatype LongArg = Without | Equals(arg: string) | NextElement(arg: string) | Unwanted(arg: string)

  /** A word that is no option, a group of short options, a long option, or a long name that is not known. */
  datatype Item =
    | Word(word: string)
    | Short(flags: string, last: ShortEnd)
    | Long(dashes: string, text: string, index: nat, arg: LongArg)
    | Stranger(dashes: string, text: string)

  /** How the command line ends: after its items, at "--", or at an option whose argument is missing. */
  datatype End =
    | Nothing
    | Dashes(rest: seq<string>)
    | ShortMissing(flags: string, c: char)
    | LongMissing(dashes: string, text: string, index: nat)

  /** What is meant by an option: the code to be returned, its argument, optopt and the index of a long option. */
  datatype Meaning = Meaning(code: int, arg: Option<string>, optopt: Option<int>, longind: Option<nat>)

  // ---------------------------------------------------------------------
  // Their spelling
  // ---------------------------------------------------------------------

  function LastText(last: ShortEnd): string {
    match last
    case NoMore => ""
    case Attached(c, arg) => [c] + arg
    case Separate(c, _) => [c]
    case Bare(c) => [c]
  }

  function LongText(text: string, arg: LongArg): string {
    match arg
    case Without => text
    case Equals(a) => text + "=" + a
    case NextElement(_) => text
    case Unwanted(a) => text + "=" + a
  }

  /** The elements of argv that spell an item. */
  function Spell(item: Item): seq<string> {
    match item
    case Word(word) => [word]
    case Short(flags, last) =>
      ["-" + (flags + LastText(last))] + if last.Separate? then [last.arg] else []
    case Long(dashes, text, _, arg) =>
      [dashes + LongText(text, arg)] + if arg.NextElement? then [arg.arg] else []
    case Stranger(dashes, text) => [dashes + text]
  }

  function SpellEnd(end: End): seq<string> {
    match end
    case Nothing => []
    case Dashes(rest) => ["--"] + rest
    case ShortMissing(flags, c) => ["-" + (flags + [c])]
    case LongMissing(dashes, text, _) => [dashes + text]
  }

  function SpellAll(items: seq<Item>, end: End): seq<string> {
    if items == [] then SpellEnd(end) else Spell(items[0]) + SpellAll(items[1..], end)
  }

  // ---------------------------------------------------------------------
  // Their meaning
  // ---------------------------------------------------------------------

  /** The option string lists c, at its first place with that many colons after it. */
  ghost predicate Declares(optstring: string, c: char, colons: nat) {
    exists i :: 0 <= i < |optstring| && optstring[i] == c && c != ':' && c !in optstring[..i] && Colons(optstring, i + 1, colons)
  }

  ghost predicate Colons(optstring: string, i: nat, colons: nat) {
    && (colons == 0 ==> !(i < |optstring| && optstring[i] == ':'))
    && (colons == 1 ==> i < |optstring| && optstring[i] == ':' && !(i + 1 < |optstring| && optstring[i + 1] == ':'))
    && (colons == 2 ==> i + 1 < |optstring| && optstring[i] == ':' && optstring[i + 1] == ':')
  }

  predicate Undeclared(optstring: string, c: char) {
    c == ':' || c !in optstring
  }

  /** text is the whole name of entry k, the first of that name, or the beginning of this name and of no other. */
  ghost predicate Names(opts: seq<LongOption>, text: string, k: nat) {
    && k < |opts|
    && if text == opts[k].name then forall j :: 0 <= j < k ==> opts[j].name != text
       else text < opts[k].name && forall j :: 0 <= j < |opts| && j != k ==> !(text <= opts[j].name)
  }

  /** text begins no name, or several and is none of them. */
  ghost predicate NamesNone(opts: seq<LongOption>, text: string) {
    forall j :: 0 <= j < |opts| ==> !(text <= opts[j].name)
  }

  ghost predicate NamesMany(opts: seq<LongOption>, text: string) {
    && (forall j :: 0 <= j < |opts| ==> opts[j].name != text)
    && exists i, j :: 0 <= i < j < |opts| && text <= opts[i].name && text <= opts[j].name
  }

  /** name is the part of text before the first '='. */
  predicate IsName(text: string, name: string) {
    name <= text && '=' !in name && (|name| < |text| ==> text[|name|] == '=')
  }

  /** After dashes, text is looked up among the long names: after two, or after one if that is allowed. */
  predicate IsLong(spec: Spec, dashes: string, text: string) {
    && spec.longopts.Some? && text != []
    && (dashes == "--"
        || (dashes == "-" && text[0] != '-' && spec.longOnly && (|text| > 1 || text[0] !in spec.optstring)))
  }

  /**
   * In the element "-" + body the characters chars are read as short options:
   * there are no long ones, or the element is not looked up among them, or no
   * long name begins like chars.
   */
  ghost predicate IsShort(spec: Spec, body: string, chars: string) {
    && body != [] && chars != []
    && (|| spec.longopts.None?
        || (body[0] != '-'
            && (|| !spec.longOnly
                || (|body| == 1 && body[0] in spec.optstring)
                || (chars[0] in spec.optstring && forall name :: IsName(chars, name) ==> NamesNone(spec.longopts.value, name)))))
  }

  ghost predicate FlagsOk(spec: Spec, flags: string, last: string) {
    forall i :: 0 <= i < |flags| ==>
      && (Declares(spec.optstring, flags[i], 0) || Undeclared(spec.optstring, flags[i]))
      && IsShort(spec, flags + last, (flags + last)[i..])
  }

  /** Whether a long option of that kind is spelled so. */
  predicate Takes(hasArg: nat, arg: LongArg) {
    match arg
    case Without => hasArg != 1
    case Equals(_) => hasArg != 0
    case NextElement(_) => hasArg == 1
    case Unwanted(_) => hasArg == 0
  }

  /** The item is spelled with the options that there are. */
  ghost predicate ItemOk(spec: Spec, item: Item) {
    match item
    case Word(word) => word == [] || word[0] != '-' || word == "-"
    case Short(flags, last) =>
      && (flags != [] || last != NoMore) && flags + LastText(last) != "-" && FlagsOk(spec, flags, LastText(last))
      && (last != NoMore ==> IsShort(spec, flags + LastText(last), LastText(last)))
      && (match last
          case NoMore => true
          case Attached(c, arg) => arg != [] && (Declares(spec.optstring, c, 1) || Declares(spec.optstring, c, 2))
          case Separate(c, _) => Declares(spec.optstring, c, 1)
          case Bare(c) => Declares(spec.optstring, c, 2))
    case Long(dashes, text, k, arg) =>
      && IsLong(spec, dashes, LongText(text, arg)) && '=' !in text && Names(spec.longopts.value, text, k)
      && Takes(spec.longopts.value[k].hasArg, arg)
    case Stranger(dashes, text) =>
      && IsLong(spec, dashes, text)
      && forall name :: IsName(text, name) ==>
           || (NamesNone(spec.longopts.value, name) && (dashes == "--" || text[0] !in spec.optstring))
           || NamesMany(spec.longopts.value, name)
  }

  ghost predicate EndOk(spec: Spec, end: End) {
    match end
    case Nothing => true
    case Dashes(_) => true
    case ShortMissing(flags, c) =>
      && flags + [c] != "-" && FlagsOk(spec, flags, [c]) && IsShort(spec, flags + [c], [c]) && Declares(spec.optstring, c, 1)
    case LongMissing(dashes, text, k) =>
      && IsLong(spec, dashes, text) && '=' !in text && Names(spec.longopts.value, text, k)
      && spec.longopts.value[k].hasArg == 1
  }

  function Missing(spec: Spec): int {
    if spec.optstring != [] && spec.optstring[0] == ':' then 58 else 63
  }

  /** A declared flag is itself, any other is '?' and is left in optopt. */
  function FlagMeaning(spec: Spec, c: char): Meaning {
    if Undeclared(spec.optstring, c) then Meaning(63, None, Some(c as int), None) else Meaning(c as int, None, None, None)
  }

  function FlagsMean(spec: Spec, flags: string): seq<Meaning> {
    seq(|flags|, i requires 0 <= i < |flags| => FlagMeaning(spec, flags[i]))
  }

  function LastMeans(last: ShortEnd): seq<Meaning> {
    match last
    case NoMore => []
    case Attached(c, arg) => [Meaning(c as int, Some(arg), None, None)]
    case Separate(c, arg) => [Meaning(c as int, Some(arg), None, None)]
    case Bare(c) => [Meaning(c as int, None, None, None)]
  }

  function LongMeaning(o: LongOption, k: nat, arg: LongArg): Meaning {
    var code := if o.hasFlag then 0 else o.val;
    match arg
    case Without => Meaning(code, None, None, Some(k))
    case Equals(a) => Meaning(code, Some(a), None, Some(k))
    case NextElement(a) => Meaning(code, Some(a), None, Some(k))
    case Unwanted(_) => Meaning(63, None, Some(o.val), None)
  }

  ghost function Means(spec: Spec, item: Item): seq<Meaning>
    requires ItemOk(spec, item)
  {
    match item
    case Word(_) => []
    case Short(flags, last) => FlagsMean(spec, flags) + LastMeans(last)
    case Long(_, _, k, arg) => [LongMeaning(spec.longopts.value[k], k, arg)]
    case Stranger(_, _) => [Meaning(63, None, Some(0), None)]
  }

  ghost function EndMeans(spec: Spec, end: End): seq<Meaning>
    requires EndOk(spec, end)
  {
    match end
    case Nothing => []
    case Dashes(_) => []
    case ShortMissing(flags, c) => FlagsMean(spec, flags) + [Meaning(Missing(spec), None, Some(c as int), None)]
    case LongMissing(_, _, k) => [Meaning(Missing(spec), None, Some(spec.longopts.value[k].val), None)]
  }

  ghost predicate AllOk(spec: Spec, items: seq<Item>, end: End) {
    EndOk(spec, end) && forall i :: 0 <= i < |items| ==> ItemOk(spec, items[i])
  }

  ghost function MeansAll(spec: Spec, items: seq<Item>, end: End): seq<Meaning>
    requires AllOk(spec, items, end)
  {
    if items == [] then EndMeans(spec, end) else Means(spec, items[0]) + MeansAll(spec, items[1..], end)
  }

  /** The elements that belong to options, and those that do not. */
  function OptionElements(items: seq<Item>, end: End): seq<string> {
    if items == [] then if end.Dashes? then ["--"] else SpellEnd(end)
    else (if items[0].Word? then [] else Spell(items[0])) + OptionElements(items[1..], end)
  }

  function OtherElements(items: seq<Item>, end: End): seq<string> {
    if items == [] then if end.Dashes? then end.rest else []
    else (if items[0].Word? then [items[0].word] else []) + OtherElements(items[1..], end)
  }

  // ---------------------------------------------------------------------
  // What is decoded
  // ---------------------------------------------------------------------

  predicate HasMeaning(d: Decoded, m: Meaning) {
    d.code == m.code && d.arg == m.arg && d.optopt == m.optopt && d.longind == m.longind
  }

  predicate HaveMeanings(ds: seq<Decoded>, ms: seq<Meaning>) {
    |ds| == |ms| && forall i :: 0 <= i < |ds| ==> HasMeaning(ds[i], ms[i])
  }

  lemma KindOf(optstring: string, c: char, colons: nat)
    requires Declares(optstring, c, colons) && colons <= 2
    ensures ShortKind(optstring, c) == (if colons == 0 then NoArg else if colons == 1 then RequiredArg else OptionalArg)
    ensures !Undeclared(optstring, c)
  {
    var i :| 0 <= i < |optstring| && optstring[i] == c && c != ':' && c !in optstring[..i] && Colons(optstring, i + 1, colons);
    assert forall k :: 0 <= k < i ==> optstring[k] == optstring[..i][k] != c;
    assert FirstIndex(optstring, c) == i;
  }

  lemma KindOfUndeclared(optstring: string, c: char)
    requires Undeclared(optstring, c)
    ensures ShortKind(optstring, c) == Unknown
  {
    var k := FirstIndex(optstring, c);
  }

  lemma NameIs(text: string, name: string)
    requires IsName(text, name)
    ensures LongName(text) == name
  {
    var k := FirstIndex(text, '=');
    assert forall i :: 0 <= i < |name| ==> text[i] == name[i];
    assert name == text[..|name|];
  }

  lemma NameOf(text: string)
    ensures IsName(text, LongName(text))
  {
  }

  /** Characters that are read as short options. */
  lemma DecodesShort(spec: Spec, body: string, chars: string, next: Option<string>)
    requires IsShort(spec, body, chars)
    ensures !NonOption("-" + body) && Decodes(spec, "-" + body, chars, next, ShortResult(spec, chars, next))
    ensures Body(spec, "-" + body) == body
  {
    var elem := "-" + body;
    assert elem[0] == '-' && elem[1] == body[0] && elem[1..] == body;
    if TriesLong(spec, elem) {
      NameOf(chars);
      assert IsLookup(spec.longopts.value, LongName(chars), NotFound);
      assert LongResult(spec, elem, chars, next, NotFound) == ShortResult(spec, chars, next);
    }
  }

  lemma LongElement(spec: Spec, dashes: string, text: string)
    requires IsLong(spec, dashes, text)
    ensures var elem := dashes + text;
            !NonOption(elem) && TriesLong(spec, elem) && Body(spec, elem) == text && elem != "--"
            && (elem[1] == '-' <==> dashes == "--")
  {
    var elem := dashes + text;
    if dashes == "--" {
      assert elem[0] == '-' && elem[1] == '-' && elem[2..] == text;
    } else {
      assert elem[0] == '-' && elem[1] == text[0] && elem[1..] == text;
    }
  }

  lemma NamesIsLookup(opts: seq<LongOption>, text: string, k: nat)
    requires Names(opts, text, k)
    ensures IsLookup(opts, text, Hit(k))
  {
  }

  // ---------------------------------------------------------------------
  // Groups of short options
  // ---------------------------------------------------------------------

  /** What the options of args are, and how args is split, if those of the elements after the first n are ds. */
  ghost predicate Scans(spec: Spec, args: seq<string>, chars: string, n: nat, ds: seq<Decoded>, more: seq<Decoded>)
    requires n <= |args| && (chars != [] ==> args != [] && !NonOption(args[0]))
  {
    && (Options(spec, args[n..], [], more) ==> Options(spec, args, chars, ds + more))
    && var p := Split(spec, args[n..]);
       SplitFrom(spec, args, chars) == Parts(args[..n] + p.options, p.others)
  }

  lemma OptionsCons(spec: Spec, args: seq<string>, chars: string, d: Decoded, ds: seq<Decoded>)
    requires args != [] && !NonOption(args[0]) && chars != [] && Decodes(spec, args[0], chars, Next(args), d)
    requires d.advance <= |args| && Options(spec, args[d.advance..], d.rest, ds)
    ensures Options(spec, args, chars, [d] + ds)
  {
    hide Decodes, NonOption;
    assert ([d] + ds)[1..] == ds;
  }

  /** The last option of the element. */
  lemma ScansLast(spec: Spec, args: seq<string>, chars: string, d: Decoded, more: seq<Decoded>)
    requires args != [] && !NonOption(args[0]) && chars != [] && Decodes(spec, args[0], chars, Next(args), d)
    requires d.rest == [] && d.advance <= |args|
    ensures Scans(spec, args, chars, d.advance, [d], more)
  {
    hide Decodes, NonOption, Options, Split, SplitGroup;
    DecodeFollowsSplit(spec, args, chars, d);
    if Options(spec, args[d.advance..], [], more) { OptionsCons(spec, args, chars, d, more); }
  }

  /** One option, and then the rest of the element. */
  lemma ScansOne(spec: Spec, args: seq<string>, chars: string, d: Decoded, n: nat, ds: seq<Decoded>, more: seq<Decoded>)
    requires args != [] && !NonOption(args[0]) && chars != [] && Decodes(spec, args[0], chars, Next(args), d)
    requires n <= |args| && d.advance == 0 && d.rest != [] && Scans(spec, args, d.rest, n, ds, more)
    ensures Scans(spec, args, chars, n, [d] + ds, more)
  {
    hide Decodes, NonOption, Options, Split, SplitGroup;
    DecodeFollowsSplit(spec, args, chars, d);
    assert args[0..] == args && args[..0] == [];
    assert [] + SplitFrom(spec, args, d.rest).options == SplitFrom(spec, args, d.rest).options;
    if Options(spec, args[n..], [], more) {
      OptionsCons(spec, args, chars, d, ds + more);
      assert [d] + (ds + more) == [d] + ds + more;
    }
  }

  /** What the last option of a group decodes to: with its argument here or in the next element, or without it. */
  lemma LastDecodes(spec: Spec, body: string, last: ShortEnd, next: Option<string>) returns (d: Decoded)
    requires last != NoMore && IsShort(spec, body, LastText(last)) && (last.Separate? ==> next == Some(last.arg))
    requires match last
             case NoMore => false
             case Attached(c, arg) => arg != [] && (Declares(spec.optstring, c, 1) || Declares(spec.optstring, c, 2))
             case Separate(c, _) => Declares(spec.optstring, c, 1)
             case Bare(c) => Declares(spec.optstring, c, 2)
    ensures Decodes(spec, "-" + body, LastText(last), next, d) && HasMeaning(d, LastMeans(last)[0])
    ensures d.rest == [] && d.advance == if last.Separate? then 2 else 1
  {
    hide Decodes;
    var chars := LastText(last);
    DecodesShort(spec, body, chars, next);
    d := ShortResult(spec, chars, next);
    assert chars[0] == last.c && chars[1..] == if last.Attached? then last.arg else [];
    if Declares(spec.optstring, last.c, 1) { KindOf(spec.optstring, last.c, 1); } else { KindOf(spec.optstring, last.c, 2); }
  }

  lemma FlagDecodes(spec: Spec, body: string, chars: string, next: Option<string>) returns (d: Decoded)
    requires IsShort(spec, body, chars)
    requires Declares(spec.optstring, chars[0], 0) || Undeclared(spec.optstring, chars[0])
    ensures Decodes(spec, "-" + body, chars, next, d) && HasMeaning(d, FlagMeaning(spec, chars[0]))
    ensures d.rest == chars[1..] && d.advance == if |chars| == 1 then 1 else 0
  {
    hide Decodes;
    DecodesShort(spec, body, chars, next);
    d := ShortResult(spec, chars, next);
    if Undeclared(spec.optstring, chars[0]) {
      KindOfUndeclared(spec.optstring, chars[0]);
    } else {
      KindOf(spec.optstring, chars[0], 0);
    }
  }

  lemma Joined(ds: seq<Decoded>, ms: seq<Meaning>, d: Decoded, m: Meaning)
    requires HaveMeanings(ds, ms) && HasMeaning(d, m)
    ensures HaveMeanings([d] + ds, [m] + ms)
  {
  }

  /**
   * The flags from the i-th on, and then what the last characters of the group
   * decode to, if there are any.
   */
  lemma {:induction false} FlagsScan(spec: Spec, args: seq<string>, flags: string, last: string, i: nat, lastD: seq<Decoded>,
                                     lastM: seq<Meaning>, n: nat, more: seq<Decoded>) returns (ds: seq<Decoded>)
    requires args != [] && args[0] == "-" + (flags + last) && 1 <= n <= |args| && FlagsOk(spec, flags, last)
    requires i <= |flags| && (flags + last)[i..] != [] && !NonOption(args[0])
    requires last == [] ==> n == 1 && lastD == [] && lastM == []
    requires last != [] ==> HaveMeanings(lastD, lastM) && Scans(spec, args, last, n, lastD, more)
    ensures Scans(spec, args, (flags + last)[i..], n, ds, more) && HaveMeanings(ds, FlagsMean(spec, flags)[i..] + lastM)
    decreases |flags| - i
  {
    hide Scans, NonOption, IsShort, Declares, Undeclared, Decodes, HasMeaning, FlagMeaning;
    var body, ms := flags + last, FlagsMean(spec, flags);
    if i == |flags| {
      assert body[i..] == last && ms[i..] + lastM == lastM;
      ds := lastD;
    } else {
      var chars := body[i..];
      assert chars[0] == flags[i] && chars[1..] == body[i + 1..];
      var d := FlagDecodes(spec, body, chars, Next(args));
      assert ms[i..] + lastM == [ms[i]] + (ms[i + 1..] + lastM);
      if |chars| == 1 {
        assert ms[i + 1..] + lastM == [];
        ScansLast(spec, args, chars, d, more);
        ds := [d];
        Joined([], [], d, ms[i]);
        assert [d] + [] == [d];
      } else {
        ds := FlagsScan(spec, args, flags, last, i + 1, lastD, lastM, n, more);
        ScansOne(spec, args, chars, d, n, ds, more);
        Joined(ds, ms[i + 1..] + lastM, d, ms[i]);
        ds := [d] + ds;
      }
    }
  }

  /** From the beginning of an option element on. */
  lemma ScansElement(spec: Spec, args: seq<string>, n: nat, ds: seq<Decoded>, more: seq<Decoded>)
    requires args != [] && !NonOption(args[0]) && args[0] != "--" && Body(spec, args[0]) != [] && n <= |args|
    requires Scans(spec, args, Body(spec, args[0]), n, ds, more)
    ensures Scans(spec, args, [], n, ds, more)
  {
    hide NonOption, Body, SplitGroup;
  }

  lemma ShortScans(spec: Spec, flags: string, last: ShortEnd, rest: seq<string>, more: seq<Decoded>) returns (ds: seq<Decoded>)
    requires ItemOk(spec, Short(flags, last))
    ensures var item := Short(flags, last);
            Scans(spec, Spell(item) + rest, [], |Spell(item)|, ds, more) && HaveMeanings(ds, Means(spec, item))
  {
    hide Scans, IsShort, Declares, Undeclared, Decodes, HasMeaning, FlagMeaning, Body, NonOption;
    var text, item := LastText(last), Short(flags, last);
    var body, args, n := flags + text, Spell(item) + rest, |Spell(item)|;
    GroupStarts(spec, flags, text);
    var lastD, lastM := [], LastMeans(last);
    if last != NoMore {
      assert last.Separate? ==> Next(args) == Some(last.arg);
      var d := LastDecodes(spec, body, last, Next(args));
      ScansLast(spec, args, text, d, more);
      lastD := [d];
    }
    assert body[0..] == body && FlagsMean(spec, flags)[0..] == FlagsMean(spec, flags);
    ds := FlagsScan(spec, args, flags, text, 0, lastD, lastM, n, more);
    ScansElement(spec, args, n, ds, more);
  }

  lemma GroupStarts(spec: Spec, flags: string, text: string)
    requires flags + text != [] && flags + text != "-"
    requires if flags != [] then FlagsOk(spec, flags, text) else IsShort(spec, flags + text, text)
    ensures var elem := "-" + (flags + text); !NonOption(elem) && elem != "--" && Body(spec, elem) == flags + text
  {
    hide Decodes;
    var body := flags + text;
    if flags != [] { assert IsShort(spec, body, body[0..]); }
    DecodesShort(spec, body, if flags != [] then body[0..] else text, None);
    assert ("-" + body)[1..] == body && "--"[1..] == "-";
  }

  lemma LongDecodes(spec: Spec, dashes: string, text: string, k: nat, arg: LongArg, next: Option<string>) returns (d: Decoded)
    requires ItemOk(spec, Long(dashes, text, k, arg)) && (arg.NextElement? ==> next == Some(arg.arg))
    ensures var chars := LongText(text, arg); !NonOption(dashes + chars) && Decodes(spec, dashes + chars, chars, next, d)
    ensures HasMeaning(d, LongMeaning(spec.longopts.value[k], k, arg))
    ensures d.rest == [] && d.advance == if arg.NextElement? then 2 else 1
  {
    hide IsLookup;
    var chars, opts := LongText(text, arg), spec.longopts.value;
    LongElement(spec, dashes, chars);
    assert text <= chars && (arg.Equals? || arg.Unwanted? ==> chars[|text| + 1..] == arg.arg);
    NameIs(chars, text);
    NamesIsLookup(opts, text, k);
    d := LongResult(spec, dashes + chars, chars, next, Hit(k));
  }

  lemma LongScans(spec: Spec, item: Item, rest: seq<string>, more: seq<Decoded>) returns (ds: seq<Decoded>)
    requires ItemOk(spec, item) && item.Long?
    ensures Scans(spec, Spell(item) + rest, [], |Spell(item)|, ds, more) && HaveMeanings(ds, Means(spec, item))
  {
    hide Scans, Decodes, HasMeaning, Body, NonOption, LongMeaning, Names;
    var args := Spell(item) + rest;
    LongElement(spec, item.dashes, LongText(item.text, item.arg));
    assert item.arg.NextElement? ==> Next(args) == Some(item.arg.arg);
    var d := LongDecodes(spec, item.dashes, item.text, item.index, item.arg, Next(args));
    ScansLast(spec, args, LongText(item.text, item.arg), d, more);
    ds := [d];
    ScansElement(spec, args, |Spell(item)|, ds, more);
  }

  lemma StrangerDecodes(spec: Spec, dashes: string, text: string, next: Option<string>) returns (d: Decoded)
    requires ItemOk(spec, Stranger(dashes, text))
    ensures !NonOption(dashes + text) && Decodes(spec, dashes + text, text, next, d)
    ensures HasMeaning(d, Meaning(63, None, Some(0), None)) && d.rest == [] && d.advance == 1
  {
    LongElement(spec, dashes, text);
    NameOf(text);
    var opts, name := spec.longopts.value, LongName(text);
    if NamesMany(opts, name) {
      assert IsLookup(opts, name, Ambiguous);
      d := LongResult(spec, dashes + text, text, next, Ambiguous);
    } else {
      assert IsLookup(opts, name, NotFound);
      d := LongResult(spec, dashes + text, text, next, NotFound);
    }
  }

  lemma StrangerScans(spec: Spec, item: Item, rest: seq<string>, more: seq<Decoded>) returns (ds: seq<Decoded>)
    requires ItemOk(spec, item) && item.Stranger?
    ensures Scans(spec, Spell(item) + rest, [], 1, ds, more) && HaveMeanings(ds, Means(spec, item))
  {
    hide Scans, Decodes, HasMeaning, Body, NonOption;
    var args := Spell(item) + rest;
    LongElement(spec, item.dashes, item.text);
    var d := StrangerDecodes(spec, item.dashes, item.text, Next(args));
    ScansLast(spec, args, item.text, d, more);
    ds := [d];
    ScansElement(spec, args, 1, ds, more);
  }

  // ---------------------------------------------------------------------
  // Whole command lines
  // ---------------------------------------------------------------------

  /** The options of args mean ms, and its elements fall into these. */
  ghost predicate Comes(spec: Spec, args: seq<string>, ds: seq<Decoded>, ms: seq<Meaning>, options: seq<string>, others: seq<string>) {
    Options(spec, args, [], ds) && HaveMeanings(ds, ms) && Split(spec, args) == Parts(options, others)
  }

  lemma OptionComes(spec: Spec, item: Item, rest: seq<string>, ds: seq<Decoded>, more: seq<Decoded>, ms: seq<Meaning>,
                    options: seq<string>, others: seq<string>)
    requires ItemOk(spec, item) && Comes(spec, rest, more, ms, options, others)
    requires Scans(spec, Spell(item) + rest, [], |Spell(item)|, ds, more) && HaveMeanings(ds, Means(spec, item))
    ensures Comes(spec, Spell(item) + rest, ds + more, Means(spec, item) + ms, Spell(item) + options, others)
  {
    hide Options, Split, HasMeaning, Spell, ItemOk, Means;
    assert (Spell(item) + rest)[|Spell(item)|..] == rest && (Spell(item) + rest)[..|Spell(item)|] == Spell(item);
  }

  lemma WordComes(spec: Spec, word: string, rest: seq<string>, more: seq<Decoded>, ms: seq<Meaning>,
                  options: seq<string>, others: seq<string>)
    requires ItemOk(spec, Word(word)) && Comes(spec, rest, more, ms, options, others)
    ensures Comes(spec, [word] + rest, more, ms, options, [word] + others)
  {
    hide SplitGroup, HasMeaning;
    assert ([word] + rest)[1..] == rest;
  }

  lemma EndComes(spec: Spec, end: End) returns (ds: seq<Decoded>)
    requires EndOk(spec, end)
    ensures Comes(spec, SpellEnd(end), ds, EndMeans(spec, end), OptionElements([], end), OtherElements([], end))
  {
    hide Scans, IsShort, Declares, Undeclared, Decodes, HasMeaning, FlagMeaning, Body, NonOption, Names;
    var args := SpellEnd(end);
    match end
    case Nothing => ds := [];
    case Dashes(rest) =>
      ds := [];
      DashesSplit(spec, args);
    case ShortMissing(flags, c) =>
      var body := flags + [c];
      var d := MissingDecodes(spec, body, c);
      GroupStarts(spec, flags, [c]);
      ScansLast(spec, args, [c], d, []);
      assert body[0..] == body && FlagsMean(spec, flags)[0..] == FlagsMean(spec, flags);
      ds := FlagsScan(spec, args, flags, [c], 0, [d], [Meaning(Missing(spec), None, Some(c as int), None)], 1, []);
      ScansElement(spec, args, 1, ds, []);
      EndScanned(spec, args, ds);
    case LongMissing(dashes, text, k) =>
      var d := LongMissingDecodes(spec, dashes, text, k);
      LongElement(spec, dashes, text);
      ScansLast(spec, args, text, d, []);
      ds := [d];
      ScansElement(spec, args, 1, ds, []);
      EndScanned(spec, args, ds);
  }

  lemma EndScanned(spec: Spec, args: seq<string>, ds: seq<Decoded>)
    requires |args| == 1 && Scans(spec, args, [], 1, ds, [])
    ensures Options(spec, args, [], ds) && Split(spec, args) == Parts(args, [])
  {
    assert args[1..] == [] && ds + [] == ds && args[..1] + [] == args;
    assert Options(spec, [], [], []);
  }

  lemma MissingDecodes(spec: Spec, body: string, c: char) returns (d: Decoded)
    requires IsShort(spec, body, [c]) && Declares(spec.optstring, c, 1)
    ensures Decodes(spec, "-" + body, [c], None, d) && d.rest == [] && d.advance == 1
    ensures HasMeaning(d, Meaning(Missing(spec), None, Some(c as int), None))
  {
    hide Decodes;
    DecodesShort(spec, body, [c], None);
    KindOf(spec.optstring, c, 1);
    d := ShortResult(spec, [c], None);
  }

  lemma LongMissingDecodes(spec: Spec, dashes: string, text: string, k: nat) returns (d: Decoded)
    requires EndOk(spec, LongMissing(dashes, text, k))
    ensures !NonOption(dashes + text) && Decodes(spec, dashes + text, text, None, d) && d.rest == [] && d.advance == 1
    ensures HasMeaning(d, Meaning(Missing(spec), None, Some(spec.longopts.value[k].val), None))
  {
    hide IsLookup;
    LongElement(spec, dashes, text);
    NameIs(text, text);
    NamesIsLookup(spec.longopts.value, text, k);
    d := LongResult(spec, dashes + text, text, None, Hit(k));
  }

  /**
   * Every command line that spells intended options is read as they were
   * meant: each with its code, its argument and its index, unknown and
   * incomplete ones as errors; and its elements are split into those of the
   * options and the others.
   */
  lemma {:induction false} SpelledIsRead(spec: Spec, items: seq<Item>, end: End) returns (ds: seq<Decoded>)
    requires AllOk(spec, items, end)
    ensures Comes(spec, SpellAll(items, end), ds, MeansAll(spec, items, end), OptionElements(items, end), OtherElements(items, end))
    decreases |items|
  {
    hide Comes, ItemOk, EndOk, Spell, Means, Scans, HaveMeanings;
    if items == [] {
      ds := EndComes(spec, end);
    } else {
      var item, rest := items[0], SpellAll(items[1..], end);
      var ms, options, others := MeansAll(spec, items[1..], end), OptionElements(items[1..], end), OtherElements(items[1..], end);
      var more := SpelledIsRead(spec, items[1..], end);
      if item.Word? {
        WordComes(spec, item.word, rest, more, ms, options, others);
        WordIs(spec, item.word);
        ds := more;
        assert [] + ms == ms && [] + options == options;
      } else {
        var first;
        match item {
          case Short(flags, last) => first := ShortScans(spec, flags, last, rest, more);
          case Long(_, _, _, _) => first := LongScans(spec, item, rest, more);
          case Stranger(_, _) => first := StrangerScans(spec, item, rest, more); StrangerIs(item);
        }
        OptionComes(spec, item, rest, first, more, ms, options, others);
        ds := first + more;
        assert [] + others == others;
      }
    }
  }

  lemma WordIs(spec: Spec, word: string)
    requires ItemOk(spec, Word(word))
    ensures Spell(Word(word)) == [word] && Means(spec, Word(word)) == []
  {
  }

  lemma StrangerIs(item: Item)
    requires item.Stranger?
    ensures |Spell(item)| == 1
  {
  }

  predicate SeenAsMeant(seen: Seen, m: Meaning) {
    && seen.code == m.code && seen.arg == m.arg && seen.longind == m.longind
    && (m.optopt.Some? ==> seen.optopt == m.optopt.value)
  }

  /**
   * A scan to the end of a command line that spells intended options: what the
   * caller sees is what was meant, in order; then argv holds the elements of
   * the options, and at optind the others begin.
   */
  method ScanSpelled(argv: array<string>, spec: Spec, items: seq<Item>, end: End) returns (optind: nat, seen: seq<Seen>)
    requires argv.Length >= 1 && spec.Permuting() && AllOk(spec, items, end) && argv[1..] == SpellAll(items, end)
    modifies argv
    ensures |seen| == |MeansAll(spec, items, end)|
    ensures forall i :: 0 <= i < |seen| ==> SeenAsMeant(seen[i], MeansAll(spec, items, end)[i])
    ensures argv[..] == [old(argv[0])] + OptionElements(items, end) + OtherElements(items, end)
    ensures optind == 1 + |OptionElements(items, end)|
  {
    hide AllOk, Options, SpellAll, MeansAll, OptionElements, OtherElements, Split;
    ghost var orig := argv[..];
    assert orig[1..] == SpellAll(items, end) && orig[..1] == [argv[0]];
    ghost var meant := SpelledIsRead(spec, items, end);
    ghost var ds;
    optind, seen, ds := ScanAll(argv, spec);
    OptionsUnique(spec, orig[1..], [], ds, meant);
  }
}
