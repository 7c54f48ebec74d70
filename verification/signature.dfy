/**
 * The signature formatter: an exported callable's completion entry, made of a
 * display label `name(a, b)<TAB>module` and a snippet template
 * `name(${1:a}, ${2:b})` with one numbered tab stop per argument.
 *
 * The decoders further down read a label and a template back; the round-trip
 * lemmas state that the formatter is faithful to the argument list.
 */
module Signature {
  import opened Wrappers
  import opened Ast

  /** One completion candidate. */
  datatype Entry = Entry(displayLabel: string, insertionTemplate: string)

  /** The name a parameter contributes: a plain identifier, or the identifier target of a default. */
  function ParamNames(p: Node): seq<string>
  {
    match p
    case Identifier(n) => [n]
    case AssignmentPattern(Identifier(n)) => [n]
    case _ => []
  }

  /** The argument names kept from a parameter list, in declaration order. */
  function KeptArgs(params: seq<Node>): seq<string>
  {
    if params == [] then [] else ParamNames(params[0]) + KeptArgs(params[1..])
  }

  /** `sep.join(xs)` */
  function Join(xs: seq<string>, sep: string): string
  {
    if |xs| == 0 then ""
    else if |xs| == 1 then xs[0]
    else xs[0] + sep + Join(xs[1..], sep)
  }

  function DigitChar(d: nat): (c: char)
    requires d < 10
    ensures '0' <= c <= '9' && c as int - '0' as int == d
  {
    (('0' as int) + d) as char
  }

  predicate IsDigits(s: string)
  {
    forall i :: 0 <= i < |s| ==> '0' <= s[i] <= '9'
  }

  /** Decimal rendering of a natural number, as `str` gives it. */
  function NatToString(n: nat): (s: string)
    ensures |s| >= 1 && IsDigits(s)
  {
    if n < 10 then [DigitChar(n)] else NatToString(n / 10) + [DigitChar(n % 10)]
  }

  /** `${i:arg}` */
  function Placeholder(i: nat, arg: string): string
  {
    "${" + NatToString(i) + ":" + arg + "}"
  }

  /** The tab stops for `args`, numbered from `first` upwards. */
  function Placeholders(args: seq<string>, first: nat): (r: seq<string>)
    ensures |r| == |args|
  {
    if args == [] then [] else [Placeholder(first, args[0])] + Placeholders(args[1..], first + 1)
  }

  /** The completion entry for callable `name` with parameters `params`, exported by `moduleName`. */
  function FormatFunction(moduleName: string, name: string, params: seq<Node>): Entry
  {
    var args := KeptArgs(params);
    Entry(name + "(" + Join(args, ", ") + ")\t" + moduleName,
          name + "(" + Join(Placeholders(args, 1), ", ") + ")")
  }

  // ---------------------------------------------------------------------------
  // Properties of the kept arguments

  /** Keeping arguments distributes over concatenation of parameter lists. */
  lemma {:induction false} KeptArgsAppend(ps: seq<Node>, qs: seq<Node>)
    ensures KeptArgs(ps + qs) == KeptArgs(ps) + KeptArgs(qs)
  {
    if ps != [] {
      assert (ps + qs)[0] == ps[0];
      assert (ps + qs)[1..] == ps[1..] + qs;
      KeptArgsAppend(ps[1..], qs);
    } else {
      assert ps + qs == qs;
    }
  }

  /**
   * A name is kept exactly when some parameter is that identifier or a default
   * whose target is that identifier; destructuring and rest parameters never
   * contribute, and the list never grows beyond the parameters.
   */
  lemma {:induction false} KeptArgsMembers(params: seq<Node>)
    ensures |KeptArgs(params)| <= |params|
    ensures forall a :: a in KeptArgs(params) <==>
      exists i :: 0 <= i < |params| &&
        (params[i] == Identifier(a) || params[i] == AssignmentPattern(Identifier(a)))
  {
    if params != [] {
      KeptArgsMembers(params[1..]);
      forall a | a in KeptArgs(params)
        ensures exists i :: (0 <= i < |params| &&
          (params[i] == Identifier(a) || params[i] == AssignmentPattern(Identifier(a))))
      {
        if a !in ParamNames(params[0]) {
          var i :| 0 <= i < |params[1..]| &&
            (params[1..][i] == Identifier(a) || params[1..][i] == AssignmentPattern(Identifier(a)));
          assert params[i + 1] == params[1..][i];
        }
      }
      forall a, i | 0 <= i < |params| &&
          (params[i] == Identifier(a) || params[i] == AssignmentPattern(Identifier(a)))
        ensures a in KeptArgs(params)
      {
        if i > 0 {
          assert params[1..][i - 1] == params[i];
        }
      }
    }
  }

  /** A parameter list with no identifier or identifier-default keeps nothing: `name()` in both strings. */
  lemma {:induction false} NoKeptArgs(moduleName: string, name: string, params: seq<Node>)
    requires forall i :: 0 <= i < |params| ==> ParamNames(params[i]) == []
    ensures FormatFunction(moduleName, name, params) == Entry(name + "()\t" + moduleName, name + "()")
  {
    if params != [] {
      NoKeptArgs(moduleName, name, params[1..]);
    }
  }

  // ---------------------------------------------------------------------------
  // Reading a label and a template back

  /** The first position of `c` in `s`. */
  function IndexOf(s: string, c: char): (i: nat)
    requires c in s
    ensures i < |s| && s[i] == c && c !in s[..i]
  {
    if s[0] == c then 0 else 1 + IndexOf(s[1..], c)
  }

  lemma {:induction false} IndexOfAfter(a: string, c: char, b: string)
    requires c !in a
    ensures c in a + [c] + b && IndexOf(a + [c] + b, c) == |a|
  {
    if a != [] {
      assert (a + [c] + b)[1..] == a[1..] + [c] + b;
      IndexOfAfter(a[1..], c, b);
    }
  }

  /** The value of a string of decimal digits. */
  function DigitsValue(s: string): nat
    requires IsDigits(s)
  {
    if s == [] then 0 else DigitsValue(s[..|s| - 1]) * 10 + (s[|s| - 1] as int - '0' as int)
  }

  /** `int(s)` for a non-empty string of decimal digits; anything else is rejected. */
  function ParseNat(s: string): Option<nat>
  {
    if s != [] && IsDigits(s) then Some(DigitsValue(s)) else None
  }

  lemma {:induction false} ParseNatToString(n: nat)
    ensures ParseNat(NatToString(n)) == Some(n)
  {
    var s := NatToString(n);
    if n >= 10 {
      ParseNatToString(n / 10);
      assert s[..|s| - 1] == NatToString(n / 10);
      assert DigitsValue(s) == (n / 10) * 10 + n % 10;
    } else {
      assert s[..0] == [];
    }
  }

  /** Drops one leading space. */
  function Unpad(s: string): string
  {
    if |s| > 0 && s[0] == ' ' then s[1..] else s
  }

  /** Splits a `", "`-joined list back into its items. */
  function Unjoin(s: string): seq<string>
    decreases |s|
  {
    if s == "" then []
    else if ',' !in s then [s]
    else
      var i := IndexOf(s, ',');
      [s[..i]] + Unjoin(Unpad(s[i + 1..]))
  }

  /** What a label or template argument may be: a non-empty name free of the delimiters. */
  predicate PlainName(s: string)
  {
    |s| > 0 && '(' !in s && ')' !in s && ',' !in s
  }

  lemma {:induction false} JoinChars(xs: seq<string>, sep: string, c: char)
    requires c !in sep && forall i :: 0 <= i < |xs| ==> c !in xs[i]
    ensures c !in Join(xs, sep)
  {
    if |xs| > 1 {
      JoinChars(xs[1..], sep, c);
    }
  }

  lemma {:induction false} UnjoinJoin(xs: seq<string>)
    requires forall i :: 0 <= i < |xs| ==> |xs[i]| > 0 && ',' !in xs[i]
    ensures Unjoin(Join(xs, ", ")) == xs
  {
    if |xs| > 1 {
      var rest := Join(xs[1..], ", ");
      var s := Join(xs, ", ");
      assert s == xs[0] + [','] + (" " + rest);
      IndexOfAfter(xs[0], ',', " " + rest);
      assert s[..|xs[0]|] == xs[0];
      assert s[|xs[0]| + 1..] == " " + rest;
      UnjoinJoin(xs[1..]);
    }
  }

  /** Reads `name(args)<TAB>module` back into its three parts. */
  function DecodeLabel(shown: string): Option<(string, seq<string>, string)>
  {
    if '(' !in shown then None
    else
      var i := IndexOf(shown, '(');
      var rest := shown[i + 1..];
      if ')' !in rest then None
      else
        var j := IndexOf(rest, ')');
        if j + 1 < |rest| && rest[j + 1] == '\t' then Some((shown[..i], Unjoin(rest[..j]), rest[j + 2..]))
        else None
  }

  /** Reads `${k:arg}` back into `arg`, provided the stop is numbered `k`. */
  function DecodePlaceholder(p: string, k: nat): Option<string>
  {
    if |p| >= 3 && p[..2] == "${" && p[|p| - 1] == '}' && ':' in p[2..] then
      var c := 2 + IndexOf(p[2..], ':');
      if c < |p| - 1 && ParseNat(p[2..c]) == Some(k) then Some(p[c + 1..|p| - 1]) else None
    else None
  }

  /** Reads a sequence of tab stops that must be numbered `first`, `first + 1`, ... */
  function DecodePlaceholders(ps: seq<string>, first: nat): Option<seq<string>>
  {
    if ps == [] then Some([])
    else
      match (DecodePlaceholder(ps[0], first), DecodePlaceholders(ps[1..], first + 1))
      case (Some(a), Some(rest)) => Some([a] + rest)
      case _ => None
  }

  /** Reads `name(${1:a}, ${2:b})` back into the name and the arguments. */
  function DecodeTemplate(t: string): Option<(string, seq<string>)>
  {
    if '(' !in t || t[|t| - 1] != ')' then None
    else
      var i := IndexOf(t, '(');
      if i + 1 <= |t| - 1 then
        match DecodePlaceholders(Unjoin(t[i + 1..|t| - 1]), 1)
        case Some(args) => Some((t[..i], args))
        case None => None
      else None
  }

  lemma PlaceholderRoundTrip(k: nat, a: string)
    ensures DecodePlaceholder(Placeholder(k, a), k) == Some(a)
  {
    var d := NatToString(k);
    var p := Placeholder(k, a);
    assert p[2..] == d + [':'] + (a + "}");
    IndexOfAfter(d, ':', a + "}");
    ParseNatToString(k);
    assert p[2..2 + |d|] == d;
    assert p[2 + |d| + 1..|p| - 1] == a;
  }

  lemma {:induction false} PlaceholdersRoundTrip(args: seq<string>, first: nat)
    ensures DecodePlaceholders(Placeholders(args, first), first) == Some(args)
  {
    if args != [] {
      var ps := Placeholders(args, first);
      PlaceholderRoundTrip(first, args[0]);
      PlaceholdersRoundTrip(args[1..], first + 1);
      assert ps[0] == Placeholder(first, args[0]);
      assert ps[1..] == Placeholders(args[1..], first + 1);
      assert args == [args[0]] + args[1..];
    }
  }

  lemma PlaceholderChars(k: nat, a: string, c: char)
    requires c != '$' && c != '{' && c != ':' && c != '}' && !('0' <= c <= '9') && c !in a
    ensures c !in Placeholder(k, a)
  {
    var d := NatToString(k);
    assert forall i :: 0 <= i < |d| ==> d[i] != c;
    assert Placeholder(k, a) == "${" + d + [':'] + a + "}";
  }

  /** The first `(` of `name(rest` is the one after `name`. */
  lemma OpenParen(name: string, rest: string)
    requires '(' !in name
    ensures '(' in name + ['('] + rest && IndexOf(name + ['('] + rest, '(') == |name|
    ensures (name + ['('] + rest)[..|name|] == name && (name + ['('] + rest)[|name| + 1..] == rest
  {
    IndexOfAfter(name, '(', rest);
    assert (name + ['('] + rest)[..|name|] == name;
    assert (name + ['('] + rest)[|name| + 1..] == rest;
  }

  /** The first `)` of `inner)<TAB>moduleName` is the one after `inner`, and a tab follows it. */
  lemma CloseParen(inner: string, moduleName: string)
    requires ')' !in inner
    ensures var rest := inner + [')'] + (['\t'] + moduleName);
      && ')' in rest && IndexOf(rest, ')') == |inner|
      && |inner| + 1 < |rest| && rest[|inner| + 1] == '\t'
      && rest[..|inner|] == inner && rest[|inner| + 2..] == moduleName
  {
    var tail := ['\t'] + moduleName;
    var rest := inner + [')'] + tail;
    IndexOfAfter(inner, ')', tail);
    assert rest[..|inner|] == inner;
    assert rest[|inner| + 1..] == tail;
  }

  /** The label of `name` around a list text `inner` and a module name reads back into those three. */
  lemma DecodeLabelOf(name: string, inner: string, moduleName: string)
    requires '(' !in name && ')' !in inner
    ensures DecodeLabel(name + "(" + inner + ")\t" + moduleName) == Some((name, Unjoin(inner), moduleName))
  {
    LabelShape(name, inner, moduleName);
    OpenParen(name, inner + [')'] + (['\t'] + moduleName));
    CloseParen(inner, moduleName);
  }

  /** A label split at its two separators. */
  lemma LabelShape(name: string, inner: string, moduleName: string)
    ensures name + "(" + inner + ")\t" + moduleName == name + ['('] + (inner + [')'] + (['\t'] + moduleName))
  {
    assert "(" == ['('] && ")\t" == [')'] + ['\t'];
    assert name + ['('] + inner + ([')'] + ['\t']) + moduleName == name + ['('] + (inner + [')'] + (['\t'] + moduleName));
  }

  /**
   * The label reads back as the function's name, exactly the kept arguments
   * in declaration order, and the module name.
   */
  lemma LabelRoundTrip(moduleName: string, name: string, params: seq<Node>)
    requires '(' !in name
    requires forall a :: a in KeptArgs(params) ==> PlainName(a)
    ensures DecodeLabel(FormatFunction(moduleName, name, params).displayLabel)
      == Some((name, KeptArgs(params), moduleName))
  {
    var args := KeptArgs(params);
    assert forall i :: 0 <= i < |args| ==> PlainName(args[i]);
    JoinChars(args, ", ", ')');
    UnjoinJoin(args);
    DecodeLabelOf(name, Join(args, ", "), moduleName);
  }

  /**
   * The template reads back as the function's name and one tab stop per kept
   * argument, numbered 1..n in the label's order.
   */
  lemma TemplateRoundTrip(moduleName: string, name: string, params: seq<Node>)
    requires '(' !in name
    requires forall a :: a in KeptArgs(params) ==> PlainName(a)
    ensures DecodeTemplate(FormatFunction(moduleName, name, params).insertionTemplate) == Some((name, KeptArgs(params)))
  {
    var args := KeptArgs(params);
    var stops := Placeholders(args, 1);
    var inner := Join(stops, ", ");
    var t := FormatFunction(moduleName, name, params).insertionTemplate;
    assert t == name + ['('] + (inner + ")");
    IndexOfAfter(name, '(', inner + ")");
    assert t[|name| + 1..|t| - 1] == inner;
    assert t[..|name|] == name;
    forall i | 0 <= i < |stops|
      ensures |stops[i]| > 0 && ',' !in stops[i]
    {
      assert PlainName(args[i]);
      StopAt(args, 1, i);
      PlaceholderChars(1 + i, args[i], ',');
    }
    UnjoinJoin(stops);
    PlaceholdersRoundTrip(args, 1);
  }

  lemma {:induction false} StopAt(args: seq<string>, first: nat, i: nat)
    requires i < |args|
    ensures Placeholders(args, first)[i] == Placeholder(first + i, args[i])
  {
    if i > 0 {
      StopAt(args[1..], first + 1, i - 1);
    }
  }

  /** The label and the template always present the same number of arguments. */
  lemma SameArity(moduleName: string, name: string, params: seq<Node>)
    requires '(' !in name
    requires forall a :: a in KeptArgs(params) ==> PlainName(a)
    ensures DecodeLabel(FormatFunction(moduleName, name, params).displayLabel).Some?
    ensures DecodeTemplate(FormatFunction(moduleName, name, params).insertionTemplate).Some?
    ensures |DecodeLabel(FormatFunction(moduleName, name, params).displayLabel).value.1|
         == |DecodeTemplate(FormatFunction(moduleName, name, params).insertionTemplate).value.1|
  {
    LabelRoundTrip(moduleName, name, params);
    TemplateRoundTrip(moduleName, name, params);
  }
}
