/** Numbers and exact references as text. */
module Texts {
  import opened Results

  const DIGITS := "0123456789"

  function Decimal(n: nat): (t: string)
    ensures t != []
  {
    (if n < 10 then "" else Decimal(n / 10)) + [DIGITS[n % 10]]
  }

  predicate IsDigit(c: char) { '0' <= c <= '9' }

  predicate AllDigits(t: string) { forall i :: 0 <= i < |t| ==> IsDigit(t[i]) }

  function Number(t: string): nat
    requires AllDigits(t)
  {
    if t == [] then 0 else 10 * Number(t[..|t| - 1]) + (t[|t| - 1] as int - '0' as int)
  }

  lemma DigitIsRead(d: nat)
    requires d < 10
    ensures IsDigit(DIGITS[d]) && DIGITS[d] as int - '0' as int == d
  {}

  lemma NumberOneMore(t: string, d: nat)
    requires AllDigits(t) && d < 10
    ensures AllDigits(t + [DIGITS[d]]) && Number(t + [DIGITS[d]]) == 10 * Number(t) + d
  {
    DigitIsRead(d);
    assert (t + [DIGITS[d]])[..|t|] == t;
  }

  lemma {:induction false} DecimalIsRead(n: nat)
    ensures AllDigits(Decimal(n)) && Number(Decimal(n)) == n
  {
    var q, d := n / 10, n % 10;
    assert n == 10 * q + d;
    if n < 10 {
      assert Number("") == 0;
      NumberOneMore("", d);
    } else {
      DecimalIsRead(q);
      NumberOneMore(Decimal(q), d);
    }
  }

  lemma DecimalsDiffer(i: nat, j: nat)
    requires i != j
    ensures Decimal(i) != Decimal(j)
  {
    DecimalIsRead(i);
    DecimalIsRead(j);
  }

  function Until(t: string, stop: char): string {
    if t == [] || t[0] == stop then [] else [t[0]] + Until(t[1..], stop)
  }

  lemma {:induction false} UntilStops(t: string, stop: char, rest: string)
    requires stop !in t
    ensures Until(t + [stop] + rest, stop) == t
  {
    var whole := t + [stop] + rest;
    if t == [] {
      assert whole[0] == stop;
    } else {
      UntilStops(t[1..], stop, rest);
      assert whole[0] == t[0] && whole[1..] == t[1..] + [stop] + rest;
    }
  }

  // ---- Manifest versions ----

  /** The text the registry gives version `n` of a tool manifest. */
  function VersionText(n: nat): string { Decimal(n) + ['.'] + MINOR }

  const MINOR := "0.0"

  /** The positive number before the first dot. */
  function Major(version: string): Option<nat> {
    var head := Until(version, '.');
    if head == [] || !AllDigits(head) || Number(head) == 0 then None else Some(Number(head))
  }

  lemma MajorBeforeDot(head: string, rest: string)
    requires head != [] && AllDigits(head)
    ensures Major(head + ['.'] + rest) == if Number(head) == 0 then None else Some(Number(head))
  {
    UntilStops(head, '.', rest);
  }

  lemma MajorOfVersionText(n: nat)
    requires n > 0
    ensures Major(VersionText(n)) == Some(n)
  {
    DecimalIsRead(n);
    MajorBeforeDot(Decimal(n), MINOR);
  }

  // ---- References name@version ----

  datatype Ref = Ref(name: string, version: string)

  function RefText(r: Ref): string { r.name + "@" + r.version }

  predicate LineBreak(c: char) { c == '\n' || c == '\r' || c == '\U{2028}' || c == '\U{2029}' }

  predicate OneLine(t: string) { forall i :: 0 <= i < |t| ==> !LineBreak(t[i]) }

  /** The place after the last `@`, or 0. */
  function AfterLastAt(t: string): (i: nat)
    ensures i <= |t|
    ensures i > 0 ==> t[i - 1] == '@'
    ensures forall j :: i <= j < |t| ==> t[j] != '@'
  {
    if t == [] then 0
    else if t[|t| - 1] == '@' then |t|
    else AfterLastAt(t[..|t| - 1])
  }

  predicate WellFormed(r: Ref) { r.name != "" && r.version != "" && OneLine(r.name) && '@' !in r.version }

  function ParseRef(t: string): Option<Ref> {
    var i := AfterLastAt(t);
    if i == 0 then None
    else
      var r := Ref(t[..i - 1], t[i..]);
      if r.name == "" || r.version == "" || !OneLine(r.name) then None else Some(r)
  }

  /** Parsing reads back exactly the well-formed references. */
  lemma ParseReadsBack(t: string, r: Ref)
    ensures ParseRef(t) == Some(r) <==> t == RefText(r) && WellFormed(r)
  {
    var i := AfterLastAt(t);
    if t == RefText(r) && WellFormed(r) {
      var at := |r.name|;
      assert t[at] == '@' && t[..at] == r.name && t[at + 1..] == r.version;
      assert forall j :: at < j < |t| ==> t[j] == r.version[j - at - 1];
      assert i == at + 1;
    }
    if ParseRef(t) == Some(r) {
      assert t == t[..i - 1] + [t[i - 1]] + t[i..];
    }
  }

  lemma RefTextIsInjective(a: Ref, b: Ref)
    requires WellFormed(a) && WellFormed(b) && RefText(a) == RefText(b)
    ensures a == b
  {
    ParseReadsBack(RefText(a), a);
    ParseReadsBack(RefText(b), b);
  }
}
