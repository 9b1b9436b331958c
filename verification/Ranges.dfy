/**
 The arithmetic and the header parsing of ranged downloads: how a file is cut
 into parts, what a Content-Range says, and which ETags can pin a file.
 */
module Ranges {
  import opened Common

  // ----- Parts --------------------------------------------------------------------

  const MinPart := 0x10_0000

  datatype Parts = Parts(from: nat, total: nat, part: nat, count: nat) {
    function Start(i: nat): nat { from + i * part }
    function End(i: nat): nat { if Start(i) + part < total then Start(i) + part else total }
  }

  /** Two parts per connection, none smaller than the minimum unless it is the last. */
  function Cut(from: nat, total: nat, connections: nat): Parts
    requires from < total && connections > 0
  {
    var spread := (total - from + connections * 2 - 1) / (connections * 2);
    var part := if spread < MinPart then MinPart else spread;
    Parts(from, total, part, (total - from + part - 1) / part)
  }

  lemma CeilingDivides(n: nat, d: nat)
    requires d > 0
    ensures var q := (n + d - 1) / d; (q - 1) * d < n || n == 0
    ensures var q := (n + d - 1) / d; n <= q * d
  {
    var q := (n + d - 1) / d;
    assert (n + d - 1) == q * d + (n + d - 1) % d;
  }

  lemma ProductOrder(a: nat, b: nat, d: nat)
    requires a <= b
    ensures a * d <= b * d
  {
  }

  /**
   The parts are non-empty, follow each other without gap or overlap from `from`
   to `total`, and there are at most two for each connection.
   */
  lemma PartsTile(from: nat, total: nat, connections: nat)
    requires from < total && connections > 0
    ensures var p := Cut(from, total, connections);
            && 1 <= p.count <= 2 * connections
            && p.Start(0) == from && p.End(p.count - 1) == total
            && (forall i: nat :: i < p.count ==> p.Start(i) < p.End(i) <= total)
            && (forall i: nat :: i + 1 < p.count ==> p.End(i) == p.Start(i + 1))
  {
    var p := Cut(from, total, connections);
    var n, d := total - from, connections * 2;
    CeilingDivides(n, d);
    CeilingDivides(n, p.part);
    var spread := (n + d - 1) / d;
    ProductOrder(spread, p.part, d);
    assert n <= d * p.part by {
      assert d * p.part == p.part * d;
    }
    if p.count > d {
      ProductOrder(d, p.count - 1, p.part);
    }
    forall i: nat | i < p.count
      ensures p.Start(i) < p.End(i) <= total
      ensures i + 1 < p.count ==> p.End(i) == p.Start(i + 1)
    {
      ProductOrder(i, p.count - 1, p.part);
      assert p.Start(i + 1) == p.Start(i) + p.part by {
        assert (i + 1) * p.part == i * p.part + p.part;
      }
      if i + 1 < p.count {
        ProductOrder(i + 1, p.count - 1, p.part);
      }
    }
    assert p.count * p.part == (p.count - 1) * p.part + p.part;
  }

  /**
   Parts are never smaller than the minimum, and larger only as far as two a connection
   demand: any smaller part would leave some bytes over.
   */
  lemma PartsAreNoLargerThanNeeded(from: nat, total: nat, connections: nat, smaller: nat)
    requires from < total && connections > 0
    ensures var p := Cut(from, total, connections);
            && p.part >= MinPart
            && (MinPart <= smaller < p.part ==> smaller * (2 * connections) < total - from)
  {
    var p := Cut(from, total, connections);
    var n, d := total - from, connections * 2;
    if MinPart <= smaller < p.part {
      CeilingDivides(n, d);
      ProductOrder(smaller, (n + d - 1) / d - 1, d);
    }
  }

  lemma OrderedParts(p: Parts, i: nat, j: nat)
    requires i < j
    ensures p.Start(i) + p.part <= p.Start(j)
  {
    ProductOrder(i + 1, j, p.part);
    assert (i + 1) * p.part == i * p.part + p.part;
  }

  /** Every byte of the range lies in one part. */
  lemma PartOf(from: nat, total: nat, connections: nat, b: nat) returns (i: nat)
    requires from <= b < total && connections > 0
    ensures var p := Cut(from, total, connections); i < p.count && p.Start(i) <= b < p.End(i)
  {
    var p := Cut(from, total, connections);
    PartsTile(from, total, connections);
    i := 0;
    while p.End(i) <= b
      invariant i < p.count && p.Start(i) <= b
      decreases p.count - i
    {
      i := i + 1;
    }
  }

  // ----- Content-Range ---------------------------------------------------------------

  const MaxInt64 := 0x7fff_ffff_ffff_ffff

  predicate IsDigit(c: char) { '0' <= c <= '9' }

  function Value(s: string): nat
    requires forall c <- s :: IsDigit(c)
  {
    if s == [] then 0
    else
      assert s[|s| - 1] in s && IsDigit(s[|s| - 1]);
      Value(s[..|s| - 1]) * 10 + (s[|s| - 1] as int - '0' as int)
  }

  /** A signed decimal that fits 64 bits. */
  function ParseInt(s: string): Option<int> {
    var negative := s != [] && s[0] == '-';
    var digits := if s != [] && (s[0] == '-' || s[0] == '+') then s[1..] else s;
    if digits == [] || !forall c <- digits :: IsDigit(c) then None
    else
      var n: int := Value(digits);
      if negative && n <= MaxInt64 + 1 then Some(-n)
      else if !negative && n <= MaxInt64 then Some(n)
      else None
  }

  /** The text before and after the first `c`. */
  function CutAt(s: string, c: char): Option<(string, string)> {
    if s == [] then None
    else if s[0] == c then Some(([], s[1..]))
    else
      match CutAt(s[1..], c)
      case None => None
      case Some((before, after)) => Some(([s[0]] + before, after))
  }

  datatype Span = Span(first: int, last: int, size: int)

  const Unit := "bytes "

  function ContentRange(value: string): Option<Span> {
    if !(Unit <= value) then None
    else
      match CutAt(value[|Unit|..], '/')
      case None => None
      case Some((span, total)) =>
        match CutAt(span, '-')
        case None => None
        case Some((from, to)) =>
          var first, last, size := ParseInt(from), ParseInt(to), ParseInt(total);
          if first.Some? && last.Some? && size.Some? && 0 <= first.value <= last.value < size.value
          then Some(Span(first.value, last.value, size.value))
          else None
  }

  function Decimal(n: nat): (s: string)
    ensures s != [] && forall c <- s :: IsDigit(c)
  {
    var digit := ['0' + (n % 10) as char];
    if n < 10 then digit else Decimal(n / 10) + digit
  }

  lemma {:induction false} DecimalValue(n: nat)
    ensures Value(Decimal(n)) == n
  {
    var s := Decimal(n);
    if n >= 10 {
      DecimalValue(n / 10);
      assert s[..|s| - 1] == Decimal(n / 10);
    } else {
      assert s[..|s| - 1] == [];
    }
  }

  lemma DecimalParses(n: nat)
    ensures ParseInt(Decimal(n)) == if n <= MaxInt64 then Some(n) else None
  {
    DecimalValue(n);
    assert IsDigit(Decimal(n)[0]);
  }

  lemma {:induction false} CutFindsFirst(before: string, c: char, after: string)
    requires c !in before
    ensures CutAt(before + [c] + after, c) == Some((before, after))
  {
    var s := before + [c] + after;
    if before == [] {
      assert s[1..] == after;
    } else {
      assert s[1..] == before[1..] + [c] + after;
      assert before[0] in before && [before[0]] + before[1..] == before;
      CutFindsFirst(before[1..], c, after);
    }
  }

  function Formatted(first: nat, last: nat, size: nat): string {
    Unit + (Decimal(first) + ['-'] + Decimal(last)) + ['/'] + Decimal(size)
  }

  /**
   A byte range written as section 14.4 of RFC 9110 prescribes is read back
   exactly, and accepted exactly when it lies inside a file of the stated size.
   */
  lemma ContentRangeReadsBack(first: nat, last: nat, size: nat)
    ensures ContentRange(Formatted(first, last, size)) ==
            if first <= last < size <= MaxInt64 then Some(Span(first, last, size)) else None
  {
    var span := Decimal(first) + ['-'] + Decimal(last);
    var value := Formatted(first, last, size);
    assert value[|Unit|..] == span + ['/'] + Decimal(size);
    assert '/' !in span;
    CutFindsFirst(span, '/', Decimal(size));
    CutFindsFirst(Decimal(first), '-', Decimal(last));
    DecimalParses(first);
    DecimalParses(last);
    DecimalParses(size);
  }

  /** A sign may come before the digits; the least value is one further from zero than the greatest. */
  lemma SignsAreRead(n: nat)
    ensures ParseInt("-" + Decimal(n)) == if n <= MaxInt64 + 1 then Some(-(n as int)) else None
    ensures ParseInt("+" + Decimal(n)) == if n <= MaxInt64 then Some(n) else None
    ensures ParseInt("") == None && ParseInt("-") == None && ParseInt("+") == None
  {
    DecimalValue(n);
    assert ("-" + Decimal(n))[1..] == Decimal(n) && ("+" + Decimal(n))[1..] == Decimal(n);
  }

  /** Whatever is read from a Content-Range is a range of a file of the size it states. */
  lemma ContentRangeIsInside(value: string)
    requires ContentRange(value).Some?
    ensures var r := ContentRange(value).value; 0 <= r.first <= r.last < r.size <= MaxInt64
  {
  }

  // ----- Validators ---------------------------------------------------------------------

  /** The ETag when it is strong (section 8.8.3 of RFC 9110), or "". */
  function StrongETag(tag: string): string {
    if |tag| < 2 || tag[0] != '"' || tag[|tag| - 1] != '"' then "" else tag
  }

  /** Weak tags never pin a file; a quoted tag pins itself. */
  lemma StrongETagIsQuoted(tag: string)
    ensures StrongETag("W/" + tag) == ""
    ensures StrongETag(['"'] + tag + ['"']) == ['"'] + tag + ['"']
    ensures StrongETag(tag) != "" <==> exists inner: string :: tag == ['"'] + inner + ['"']
  {
    if StrongETag(tag) != "" {
      assert tag == ['"'] + tag[1..|tag| - 1] + ['"'];
    }
  }
}
