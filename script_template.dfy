/**
 * A model of Rust's `format!` as the script builder uses it: a template is
 * literal text with typed holes, `Format` fills the holes with arguments
 * (integers in decimal, booleans as `true`/`false`, identifier words as they
 * are), and `Parse` reads the arguments back out of a formatted string.
 * The central fact is the round trip `Parse(t, Format(t, args)) == Some(args)`
 * for every template whose holes are each followed by text that cannot be
 * mistaken for part of the hole.
 */
module ScriptTemplate {
  import opened Wrappers

  /** The kinds of value a hole accepts. */
  datatype Kind = Number | Boolean | Word

  /** A value written into a hole. */
  datatype Arg = NumArg(n: int) | BoolArg(b: bool) | WordArg(w: string)

  /** A hole of kind `kind` followed by the literal text `after`. */
  datatype Slot = Slot(kind: Kind, after: string)

  /** Literal text `lead`, then each slot in turn. */
  datatype Template = Template(lead: string, slots: seq<Slot>)

  predicate IsDigit(c: char) { '0' <= c <= '9' }

  predicate IsLetter(c: char) { 'a' <= c <= 'z' || 'A' <= c <= 'Z' }

  /** Whether `c` can continue the text of a hole of kind `k`. */
  predicate Continues(k: Kind, c: char) {
    match k
    case Number => IsDigit(c)
    case Boolean => IsLetter(c)
    case Word => IsLetter(c)
  }

  function KindOf(a: Arg): Kind {
    match a
    case NumArg(_) => Number
    case BoolArg(_) => Boolean
    case WordArg(_) => Word
  }

  /** A non-empty run of letters, such as a DOM event name. */
  predicate IsWord(w: string) {
    |w| > 0 && forall i :: 0 <= i < |w| ==> IsLetter(w[i])
  }

  predicate AllDigits(s: string) {
    forall i :: 0 <= i < |s| ==> IsDigit(s[i])
  }

  function DigitChar(d: nat): (c: char)
    requires d < 10
    ensures IsDigit(c) && c as int - '0' as int == d
  {
    ('0' as int + d) as char
  }

  /** The decimal digits of `n`, most significant first, without leading zeros. */
  function NatToString(n: nat): (s: string)
    ensures |s| > 0 && AllDigits(s)
    ensures n >= 10 ==> s[0] != '0'
  {
    if n < 10 then [DigitChar(n)] else NatToString(n / 10) + [DigitChar(n % 10)]
  }

  /** The value of a string of decimal digits. */
  function DigitsToNat(s: string): nat
    requires AllDigits(s)
  {
    if s == [] then 0 else DigitsToNat(s[..|s| - 1]) * 10 + (s[|s| - 1] as int - '0' as int)
  }

  lemma {:induction false} DigitsToNatOfNatToString(n: nat)
    ensures DigitsToNat(NatToString(n)) == n
  {
    if n >= 10 {
      var s := NatToString(n);
      assert s[..|s| - 1] == NatToString(n / 10);
      DigitsToNatOfNatToString(n / 10);
    }
  }

  /** Rust's `Display` of an integer: an optional minus sign, then the decimal digits. */
  function IntToString(n: int): string {
    if n < 0 then "-" + NatToString(-n) else NatToString(n)
  }

  /** The text `format!` writes for one argument. */
  function ArgText(a: Arg): string {
    match a
    case NumArg(n) => IntToString(n)
    case BoolArg(b) => if b then "true" else "false"
    case WordArg(w) => w
  }

  /** An argument `Format` writes so that `Parse` can read it back. */
  predicate Readable(a: Arg) {
    a.WordArg? ==> IsWord(a.w)
  }

  /** The length of the longest prefix of `s` that can belong to a hole of kind `k`. */
  function RunLength(k: Kind, s: string): (n: nat)
    ensures n <= |s|
    ensures forall i :: 0 <= i < n ==> Continues(k, s[i])
    ensures n < |s| ==> !Continues(k, s[n])
  {
    if s == [] || !Continues(k, s[0]) then 0 else 1 + RunLength(k, s[1..])
  }

  /** The longest prefix of `s` that can belong to a hole of kind `k`. */
  function Run(k: Kind, s: string): (r: string)
    ensures r == s[..RunLength(k, s)]
    ensures forall i :: 0 <= i < |r| ==> Continues(k, r[i])
  {
    s[..RunLength(k, s)]
  }

  /** Reads one hole of kind `k` at the start of `s`: its value and how many characters it took. */
  function ReadArg(k: Kind, s: string): (r: Option<(Arg, nat)>)
    ensures r.Some? ==> KindOf(r.value.0) == k && 0 < r.value.1 <= |s|
  {
    match k
    case Number =>
      if |s| > 0 && s[0] == '-' then
        var digits := Run(Number, s[1..]);
        if digits == [] then None else Some((NumArg(0 - DigitsToNat(digits)), 1 + |digits|))
      else
        var digits := Run(Number, s);
        if digits == [] then None else Some((NumArg(DigitsToNat(digits)), |digits|))
    case Boolean =>
      var w := Run(Boolean, s);
      if w == "true" then Some((BoolArg(true), |w|))
      else if w == "false" then Some((BoolArg(false), |w|))
      else None
    case Word =>
      var w := Run(Word, s);
      if w == [] then None else Some((WordArg(w), |w|))
  }

  function FormatSlots(slots: seq<Slot>, args: seq<Arg>): string
    requires |args| == |slots|
  {
    if slots == [] then "" else ArgText(args[0]) + slots[0].after + FormatSlots(slots[1..], args[1..])
  }

  /** `format!(template, args...)`: one argument per hole, in order. */
  function Format(t: Template, args: seq<Arg>): string
    requires |args| == |t.slots|
  {
    t.lead + FormatSlots(t.slots, args)
  }

  function ParseSlots(slots: seq<Slot>, s: string): (r: Option<seq<Arg>>)
    ensures r.Some? ==> |r.value| == |slots|
    ensures r.Some? ==> forall i :: 0 <= i < |slots| ==> KindOf(r.value[i]) == slots[i].kind
  {
    if slots == [] then
      if s == [] then Some([]) else None
    else
      match ReadArg(slots[0].kind, s)
      case None => None
      case Some((a, n)) =>
        var rest := s[n..];
        if slots[0].after <= rest then
          match ParseSlots(slots[1..], rest[|slots[0].after|..])
          case None => None
          case Some(more) => Some([a] + more)
        else None
  }

  /** The arguments that, written into `t`, give `s`; None when `s` does not have the shape of `t`. */
  function Parse(t: Template, s: string): (r: Option<seq<Arg>>)
    ensures r.Some? ==> |r.value| == |t.slots|
    ensures r.Some? ==> forall i :: 0 <= i < |t.slots| ==> KindOf(r.value[i]) == t.slots[i].kind
  {
    if t.lead <= s then ParseSlots(t.slots, s[|t.lead|..]) else None
  }

  predicate SlotsSeparated(slots: seq<Slot>) {
    forall i :: 0 <= i < |slots| ==> |slots[i].after| > 0 && !Continues(slots[i].kind, slots[i].after[0])
  }

  /** Each hole of `t` is followed by literal text whose first character cannot belong to the hole. */
  predicate Separated(t: Template) {
    SlotsSeparated(t.slots)
  }

  predicate ArgsFit(slots: seq<Slot>, args: seq<Arg>) {
    |args| == |slots| &&
    forall i :: 0 <= i < |args| ==> KindOf(args[i]) == slots[i].kind && Readable(args[i])
  }

  /** `args` has one readable argument per hole of `t`, each of the hole's kind. */
  predicate Fits(t: Template, args: seq<Arg>) {
    ArgsFit(t.slots, args)
  }

  lemma {:induction false} RunLengthOfRun(k: Kind, run: string, rest: string)
    requires forall i :: 0 <= i < |run| ==> Continues(k, run[i])
    requires rest == [] || !Continues(k, rest[0])
    ensures RunLength(k, run + rest) == |run|
  {
    if run != [] {
      assert (run + rest)[1..] == run[1..] + rest;
      RunLengthOfRun(k, run[1..], rest);
    } else {
      assert run + rest == rest;
    }
  }

  lemma ReadNatText(n: nat, rest: string)
    requires |rest| > 0 && !IsDigit(rest[0])
    ensures RunLength(Number, NatToString(n) + rest) == |NatToString(n)|
    ensures (NatToString(n) + rest)[..|NatToString(n)|] == NatToString(n)
    ensures DigitsToNat(NatToString(n)) == n
  {
    RunLengthOfRun(Number, NatToString(n), rest);
    DigitsToNatOfNatToString(n);
  }

  lemma ReadNumText(n: int, rest: string)
    requires |rest| > 0 && !IsDigit(rest[0])
    ensures ReadArg(Number, IntToString(n) + rest) == Some((NumArg(n), |IntToString(n)|))
  {
    var s := IntToString(n) + rest;
    if n < 0 {
      var digits := NatToString(-n);
      assert s[0] == '-';
      assert s[1..] == digits + rest;
      ReadNatText(-n, rest);
    } else {
      var digits := NatToString(n);
      assert s[0] == digits[0];
      ReadNatText(n, rest);
    }
  }

  lemma ReadLettersText(k: Kind, w: string, rest: string)
    requires k != Number && IsWord(w)
    requires |rest| > 0 && !IsLetter(rest[0])
    ensures Run(k, w + rest) == w
  {
    RunLengthOfRun(k, w, rest);
    assert (w + rest)[..|w|] == w;
  }

  /** Reading a hole back from its own text, followed by text that ends it, gives the argument written. */
  lemma ReadArgText(a: Arg, rest: string)
    requires Readable(a)
    requires |rest| > 0 && !Continues(KindOf(a), rest[0])
    ensures ReadArg(KindOf(a), ArgText(a) + rest) == Some((a, |ArgText(a)|))
  {
    match a
    case NumArg(n) => ReadNumText(n, rest);
    case BoolArg(b) => ReadLettersText(Boolean, ArgText(a), rest);
    case WordArg(w) => ReadLettersText(Word, w, rest);
  }

  lemma {:induction false} ParseFormatSlots(slots: seq<Slot>, args: seq<Arg>)
    requires SlotsSeparated(slots) && ArgsFit(slots, args)
    ensures ParseSlots(slots, FormatSlots(slots, args)) == Some(args)
  {
    if slots != [] {
      var tail := FormatSlots(slots[1..], args[1..]);
      var rest := slots[0].after + tail;
      var s := FormatSlots(slots, args);
      assert s == ArgText(args[0]) + rest;
      assert rest[0] == slots[0].after[0];
      ReadArgText(args[0], rest);
      assert s[|ArgText(args[0])|..] == rest;
      assert rest[|slots[0].after|..] == tail;
      assert SlotsSeparated(slots[1..]) by {
        forall i | 0 <= i < |slots[1..]|
          ensures |slots[1..][i].after| > 0 && !Continues(slots[1..][i].kind, slots[1..][i].after[0])
        {
          assert slots[1..][i] == slots[i + 1];
        }
      }
      assert ArgsFit(slots[1..], args[1..]) by {
        forall i | 0 <= i < |args[1..]|
          ensures KindOf(args[1..][i]) == slots[1..][i].kind && Readable(args[1..][i])
        {
          assert args[1..][i] == args[i + 1] && slots[1..][i] == slots[i + 1];
        }
      }
      ParseFormatSlots(slots[1..], args[1..]);
      assert [args[0]] + args[1..] == args;
    }
  }

  /** Parsing a formatted string recovers exactly the arguments written into it. */
  lemma ParseFormat(t: Template, args: seq<Arg>)
    requires Separated(t) && Fits(t, args)
    ensures Parse(t, Format(t, args)) == Some(args)
  {
    var s := Format(t, args);
    assert s[|t.lead|..] == FormatSlots(t.slots, args);
    ParseFormatSlots(t.slots, args);
  }

  /** Different arguments never give the same text. */
  lemma FormatInjective(t: Template, args1: seq<Arg>, args2: seq<Arg>)
    requires Separated(t) && Fits(t, args1) && Fits(t, args2)
    requires Format(t, args1) == Format(t, args2)
    ensures args1 == args2
  {
    ParseFormat(t, args1);
    ParseFormat(t, args2);
  }

  /** `needle` occurs in `s` starting at index `i`. */
  predicate OccursAt(s: string, needle: string, i: nat) {
    i + |needle| <= |s| && s[i..i + |needle|] == needle
  }

  /** `needle` occurs in `s` as a contiguous piece. */
  predicate Contains(s: string, needle: string) {
    exists i: nat :: i <= |s| && OccursAt(s, needle, i)
  }

  lemma ContainsMiddle(front: string, needle: string, back: string)
    ensures Contains(front + needle + back, needle)
  {
    var s := front + needle + back;
    assert s[|front|..|front| + |needle|] == needle;
    assert OccursAt(s, needle, |front|);
  }

  lemma ContainsPrefix(needle: string, back: string)
    ensures Contains(needle + back, needle)
  {
    assert (needle + back)[..|needle|] == needle;
    assert OccursAt(needle + back, needle, 0);
  }

  lemma ContainsSuffix(front: string, needle: string)
    ensures Contains(front + needle, needle)
  {
    assert (front + needle)[|front|..|front| + |needle|] == needle;
    assert OccursAt(front + needle, needle, |front|);
  }

  lemma ContainsTransitive(s: string, middle: string, needle: string)
    requires Contains(s, middle) && Contains(middle, needle)
    ensures Contains(s, needle)
  {
    var i: nat :| i <= |s| && OccursAt(s, middle, i);
    var j: nat :| j <= |middle| && OccursAt(middle, needle, j);
    forall k | 0 <= k < |needle|
      ensures s[i + j..i + j + |needle|][k] == needle[k]
    {
      assert s[i..i + |middle|][j + k] == middle[j + k];
      assert middle[j..j + |needle|][k] == middle[j + k];
    }
    assert OccursAt(s, needle, i + j);
  }

  lemma {:induction false} FormatSlotsSplit(slots: seq<Slot>, args: seq<Arg>, k: nat)
    requires |args| == |slots| && k <= |slots|
    ensures FormatSlots(slots, args) == FormatSlots(slots[..k], args[..k]) + FormatSlots(slots[k..], args[k..])
  {
    if k > 0 {
      FormatSlotsSplit(slots[1..], args[1..], k - 1);
      assert slots[..k][1..] == slots[1..][..k - 1] && args[..k][1..] == args[1..][..k - 1];
      assert slots[1..][k - 1..] == slots[k..] && args[1..][k - 1..] == args[k..];
    } else {
      assert slots[..0] == [] && slots[0..] == slots && args[0..] == args;
    }
  }

  lemma {:induction false} FormatSlotsTwo(slots: seq<Slot>, args: seq<Arg>, k: nat)
    requires |args| == |slots| && 0 < k < |slots|
    ensures FormatSlots(slots[k - 1..], args[k - 1..])
         == ArgText(args[k - 1]) + (slots[k - 1].after + ArgText(args[k]) + slots[k].after)
            + FormatSlots(slots[k + 1..], args[k + 1..])
  {
    assert slots[k - 1..][1..] == slots[k..] && args[k - 1..][1..] == args[k..];
    assert slots[k..][1..] == slots[k + 1..] && args[k..][1..] == args[k + 1..];
  }

  lemma RegroupPieces(a: string, b: string, c: string, d: string, e: string)
    ensures a + (b + (c + d + e)) == a + b + c + d + e
  {
  }

  /** The literal text of `t` just before hole `k`: the lead for the first hole, else the text after the previous one. */
  function Before(t: Template, k: nat): string
    requires k < |t.slots|
  {
    if k == 0 then t.lead else t.slots[k - 1].after
  }

  /** The text around hole `k` (the literal before it, its argument, the literal after it) occurs in the output. */
  lemma FormatContainsHole(t: Template, args: seq<Arg>, k: nat)
    requires |args| == |t.slots| && k < |t.slots|
    ensures Contains(Format(t, args), Before(t, k) + ArgText(args[k]) + t.slots[k].after)
  {
    var slots := t.slots;
    var needle := Before(t, k) + ArgText(args[k]) + slots[k].after;
    var back := FormatSlots(slots[k + 1..], args[k + 1..]);
    if k == 0 {
      assert slots[1..] == slots[k + 1..] && args[1..] == args[k + 1..];
      assert Format(t, args) == "" + needle + back;
      ContainsMiddle("", needle, back);
    } else {
      FormatSlotsSplit(slots, args, k - 1);
      FormatSlotsTwo(slots, args, k);
      var before := FormatSlots(slots[..k - 1], args[..k - 1]);
      var previous := ArgText(args[k - 1]);
      assert Format(t, args) == t.lead + (before + (previous + needle + back));
      RegroupPieces(t.lead, before, previous, needle, back);
      ContainsMiddle(t.lead + before + previous, needle, back);
    }
  }

  /** The literal text after hole `k` occurs in the output. */
  lemma FormatContainsAfter(t: Template, args: seq<Arg>, k: nat)
    requires |args| == |t.slots| && k < |t.slots|
    ensures Contains(Format(t, args), t.slots[k].after)
  {
    FormatContainsHole(t, args, k);
    ContainsSuffix(Before(t, k) + ArgText(args[k]), t.slots[k].after);
    ContainsTransitive(Format(t, args), Before(t, k) + ArgText(args[k]) + t.slots[k].after, t.slots[k].after);
  }

  lemma ContainsWithin(s: string, front: string, needle: string, back: string)
    requires Contains(s, front + needle + back)
    ensures Contains(s, needle)
  {
    ContainsMiddle(front, needle, back);
    ContainsTransitive(s, front + needle + back, needle);
  }
}
