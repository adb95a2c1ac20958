/** The signal-quality search of the aggregator, `re.search(r'CSQ.*?(\d+),(\d+)', msg)`,
    written out as an explicit matcher. The response it targets is the
    `+CSQ: <rssi>,<ber>` answer of 3GPP TS 27.007 section 8.5.

    The regular expression is read with Python's semantics: the search
    tries start positions from left to right; at a start it needs the
    literal `CSQ`; the lazy `.*?` then tries the shortest gap first and
    can skip any character except a line feed; `(\d+)` is greedy, so
    group 1 is the whole run of digits where the gap ends, and it must be
    followed by a comma and at least one more digit. */
module CsqPattern {
  import opened Text

  /** A match: the pattern starts at `start`, and group 1 is
      `s[numStart..numEnd]`. */
  datatype Span = Span(start: nat, numStart: nat, numEnd: nat)

  predicate NoLineFeed(s: string) {
    forall i :: 0 <= i < |s| ==> s[i] != '\n'
  }

  /** Declarative reading of the pattern: `CSQ` at p, a gap without line
      feeds up to q, a non-empty digit run q..e, a comma at e and a digit
      right after it. */
  predicate IsMatch(s: string, p: int, q: int, e: int) {
    0 <= p && p + 3 <= q < e && e + 1 < |s|
    && s[p..p + 3] == "CSQ"
    && NoLineFeed(s[p + 3..q])
    && AllDigits(s[q..e])
    && s[e] == ','
    && IsDigit(s[e + 1])
  }

  /** End of the run of digits that starts at q. */
  function RunEnd(s: string, q: nat): (e: nat)
    requires q <= |s|
    ensures q <= e <= |s| && AllDigits(s[q..e])
    ensures e == |s| || !IsDigit(s[e])
    decreases |s| - q
  {
    if q < |s| && IsDigit(s[q]) then
      var e := RunEnd(s, q + 1);
      assert s[q..e] == [s[q]] + s[q + 1..e];
      e
    else q
  }

  /** A digit run that ends in a comma ends where the maximal run ends. */
  lemma RunEndUnique(s: string, q: nat, e: int)
    requires q <= e < |s| && AllDigits(s[q..e]) && s[e] == ','
    ensures e == RunEnd(s, q)
  {
    var r := RunEnd(s, q);
    assert !(r < e);
    assert !(r > e);
  }

  /** `(\d+),(\d+)` tried at q: group 1 is the maximal digit run. */
  function GroupAt(s: string, q: nat): (r: Option<nat>)
    requires q <= |s|
    ensures r.Some? ==> forall p :: 0 <= p && p + 3 <= q && s[p..p + 3] == "CSQ" && NoLineFeed(s[p + 3..q]) ==> IsMatch(s, p, q, r.value)
    ensures forall p, e :: IsMatch(s, p, q, e) ==> r == Some(e)
  {
    var e := RunEnd(s, q);
    forall p, e' | IsMatch(s, p, q, e') ensures e' == e {
      RunEndUnique(s, q, e');
    }
    if q < e && e + 1 < |s| && s[e] == ',' && IsDigit(s[e + 1]) then Some(e) else None
  }

  /** The lazy gap: with `CSQ` at p and a gap up to q, try q, then widen
      the gap by one non-line-feed character. */
  function ScanGap(s: string, p: nat, q: nat): (r: Option<Span>)
    requires p + 3 <= q <= |s| && s[p..p + 3] == "CSQ" && NoLineFeed(s[p + 3..q])
    ensures r.Some? ==> r.value.start == p && q <= r.value.numStart
    ensures r.Some? ==> IsMatch(s, p, r.value.numStart, r.value.numEnd)
    ensures r.Some? ==> forall q', e :: q <= q' < r.value.numStart ==> !IsMatch(s, p, q', e)
    ensures r.Some? ==> forall e :: IsMatch(s, p, r.value.numStart, e) ==> e == r.value.numEnd
    ensures r.None? ==> forall q', e :: q <= q' ==> !IsMatch(s, p, q', e)
    decreases |s| - q
  {
    match GroupAt(s, q)
    case Some(e) => Some(Span(p, q, e))
    case None =>
      if q < |s| && s[q] != '\n' then
        assert s[p + 3..q + 1] == s[p + 3..q] + [s[q]];
        ScanGap(s, p, q + 1)
      else
        assert forall q', e :: q < q' && IsMatch(s, p, q', e) ==> s[p + 3..q'][q - (p + 3)] == s[q];
        None
  }

  /** `re.search`: the leftmost start at which the pattern matches. */
  function SearchFrom(s: string, p: nat): (r: Option<Span>)
    requires p <= |s|
    ensures r.Some? ==> p <= r.value.start && IsMatch(s, r.value.start, r.value.numStart, r.value.numEnd)
    ensures r.Some? ==> forall p', q, e :: p <= p' < r.value.start ==> !IsMatch(s, p', q, e)
    ensures r.Some? ==> forall q, e :: q < r.value.numStart ==> !IsMatch(s, r.value.start, q, e)
    ensures r.Some? ==> forall e :: IsMatch(s, r.value.start, r.value.numStart, e) ==> e == r.value.numEnd
    ensures r.None? ==> forall p', q, e :: p <= p' ==> !IsMatch(s, p', q, e)
    decreases |s| - p
  {
    if p + 3 > |s| then None
    else if s[p..p + 3] == "CSQ" && ScanGap(s, p, p + 3).Some? then ScanGap(s, p, p + 3)
    else SearchFrom(s, p + 1)
  }

  /** The span of the match the search reports, if any: it is a match, no
      match starts further left, at its start no match has a shorter gap,
      and group 1 is the whole digit run. No result means no match at all. */
  function Search(s: string): (r: Option<Span>)
    ensures r.Some? ==> IsMatch(s, r.value.start, r.value.numStart, r.value.numEnd)
    ensures r.Some? ==> forall p, q, e :: IsMatch(s, p, q, e) ==>
      r.value.start < p || (r.value.start == p && r.value.numStart < q) || (r.value.start == p && r.value.numStart == q && r.value.numEnd == e)
    ensures r.None? <==> forall p, q, e :: !IsMatch(s, p, q, e)
  {
    SearchFrom(s, 0)
  }

  /** `int(match.group(1))`, when the search matches. */
  function CsqValue(s: string): (v: Option<nat>)
    ensures v.None? <==> forall p, q, e :: !IsMatch(s, p, q, e)
  {
    match Search(s)
    case Some(m) => Some(DigitsValue(s[m.numStart..m.numEnd]))
    case None => None
  }

  /** A `+CSQ: <rssi>,<ber>` response with both numbers written canonically
      yields the first number. */
  lemma {:induction false} CsqResponseValue(rssi: nat, ber: nat)
    ensures CsqValue("+CSQ: " + NatToString(rssi) + "," + NatToString(ber)) == Some(rssi)
  {
    var a := NatToString(rssi);
    var b := NatToString(ber);
    var s := "+CSQ: " + a + "," + b;
    var e := 6 + |a|;
    assert s[1..4] == "CSQ";
    assert s[6..e] == a;
    assert s[e] == ',';
    assert s[e + 1] == b[0];
    assert NoLineFeed(s[4..6]);
    assert IsMatch(s, 1, 6, e);
    var m := Search(s).value;
    assert m.start <= 1;
    assert s[m.start..m.start + 3][0] == s[m.start];
    assert s[m.start] == 'C' && s[0] == '+';
    assert m.start == 1;
    assert m.numStart <= 6;
    assert IsDigit(s[m.numStart]) by { assert s[m.numStart..m.numEnd][0] == s[m.numStart]; }
    assert m.numStart == 6;
    assert m.numEnd == e;
    DigitsValueOfNatToString(rssi);
  }
}
