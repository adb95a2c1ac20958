/** The signal-quality bar of the dashboard (`make_csq_display`): a reset
    and an opening bracket, thirty coloured slots that are filled (`#`)
    up to the current CSQ value and empty (`.`) after it, then a colour
    reset and the closing summary `] <csq> / 30`. */
module CsqDisplay {
  import opened Text

  // Upper bounds of the four colour bands (trek.py:27-30).
  const CsqMarginal := 9
  const CsqOk := 14
  const CsqGood := 19
  const CsqExcellent := 30

  // ANSI select-graphic-rendition sequences.
  const Reset := "\U{1B}[0m"
  const Red := "\U{1B}[31m"
  const Yellow := "\U{1B}[33m"
  const Green := "\U{1B}[32m"
  const Blue := "\U{1B}[34m"

  const Opening := Reset + "["

  /** The colour escape chosen for slot `i`; it mentions nothing but `i`. */
  function ColourCode(i: int): string {
    if i <= CsqMarginal then Red
    else if i <= CsqOk then Yellow
    else if i <= CsqGood then Green
    else if i <= CsqExcellent then Blue
    else ""
  }

  function Marker(i: int, csq: int): char {
    if i <= csq then '#' else '.'
  }

  function Slot(i: int, csq: int): string {
    ColourCode(i) + [Marker(i, csq)]
  }

  /** Slots 1..n, in order. */
  function Slots(n: nat, csq: int): string {
    if n == 0 then "" else Slots(n - 1, csq) + Slot(n, csq)
  }

  function Closing(csq: int): string {
    Reset + "] " + IntToString(csq) + " / " + IntToString(CsqExcellent)
  }

  /** The bar as the source assembles it. */
  function Bar(csq: int): string {
    Opening + Slots(CsqExcellent, csq) + Closing(csq)
  }

  /** How many of the slots 1..n a CSQ value fills: min(max(csq, 0), n). */
  function FilledAmong(csq: int, n: nat): nat {
    if csq < 0 then 0 else if csq < n then csq else n
  }

  // Layout of the bar: slot i (1-based) is 6 characters wide, a 5-character
  // colour escape followed by its marker, and the slots start right after
  // the 5-character opening.
  const BodyEnd := 5 + 6 * 30

  function SlotStart(i: int): int {
    5 + 6 * (i - 1)
  }

  function ColourAt(d: string, i: int): string
    requires |d| >= BodyEnd && 1 <= i <= CsqExcellent
  {
    d[SlotStart(i)..SlotStart(i) + 5]
  }

  function MarkerAt(d: string, i: int): char
    requires |d| >= BodyEnd && 1 <= i <= CsqExcellent
  {
    d[SlotStart(i) + 5]
  }

  /** The list of pieces after the opening and slots 1..n. */
  function Pieces(n: nat, csq: int): seq<string> {
    if n == 0 then [Opening] else Pieces(n - 1, csq) + [ColourCode(n), [Marker(n, csq)]]
  }

  /** `make_csq_display(csq)`: builds the list of pieces in a loop and
      joins them. */
  method MakeCsqDisplay(csq: int) returns (display: string)
    ensures display == Bar(csq)
  {
    var parts: seq<string> := [Reset + "["];
    for i := 1 to CsqExcellent + 1
      invariant parts == Pieces(i - 1, csq)
    {
      if i <= CsqMarginal {
        parts := parts + [Red];
      } else if i <= CsqOk {
        parts := parts + [Yellow];
      } else if i <= CsqGood {
        parts := parts + [Green];
      } else if i <= CsqExcellent {
        parts := parts + [Blue];
      }
      if i <= csq {
        parts := parts + ["#"];
      } else {
        parts := parts + ["."];
      }
    }
    ConcatPieces(CsqExcellent, csq);
    ConcatAppend(parts, Closing(csq));
    parts := parts + [Reset + "] " + IntToString(csq) + " / " + IntToString(CsqExcellent)];
    display := Concat(parts);
  }

  /** Joining the pieces gives the opening and the slots. */
  lemma {:induction false} ConcatPieces(n: nat, csq: int)
    ensures Concat(Pieces(n, csq)) == Opening + Slots(n, csq)
  {
    if n == 0 {
      ConcatAppend([], Opening);
    } else {
      var prev := Pieces(n - 1, csq);
      ConcatPieces(n - 1, csq);
      assert Pieces(n, csq) == prev + [ColourCode(n)] + [[Marker(n, csq)]];
      ConcatAppend(prev, ColourCode(n));
      ConcatAppend(prev + [ColourCode(n)], [Marker(n, csq)]);
      Regroup(Opening, Slots(n - 1, csq), ColourCode(n), [Marker(n, csq)]);
    }
  }

  // Regrouping a concatenation of four strings.
  lemma Regroup(a: string, b: string, c: string, d: string)
    ensures a + b + c + d == a + (b + (c + d))
  {
  }

  /** Each of the 30 slots is a 5-character colour escape and a marker. */
  lemma SlotShape(i: int, csq: int)
    requires 1 <= i <= CsqExcellent
    ensures |Slot(i, csq)| == 6
    ensures Slot(i, csq)[..5] == ColourCode(i) && Slot(i, csq)[5] == Marker(i, csq)
  {
    assert |ColourCode(i)| == 5;
  }

  lemma {:induction false} SlotsLength(n: nat, csq: int)
    requires n <= CsqExcellent
    ensures |Slots(n, csq)| == 6 * n
  {
    if n > 0 {
      SlotsLength(n - 1, csq);
      SlotShape(n, csq);
    }
  }

  /** Slot i sits at offset 6 * (i - 1) of the first n slots. */
  lemma {:induction false} SlotsAt(n: nat, csq: int, i: int)
    requires 1 <= i <= n <= CsqExcellent
    ensures |Slots(n, csq)| == 6 * n
    ensures Slots(n, csq)[6 * (i - 1)..6 * i] == Slot(i, csq)
  {
    var prev := Slots(n - 1, csq);
    SlotsLength(n - 1, csq);
    SlotShape(n, csq);
    assert Slots(n, csq) == prev + Slot(n, csq);
    if i < n {
      SlotsAt(n - 1, csq, i);
      assert Slots(n, csq)[6 * (i - 1)..6 * i] == prev[6 * (i - 1)..6 * i];
    } else {
      var last := Slot(n, csq);
      assert |prev| == 6 * (i - 1);
      assert (prev + last)[|prev|..] == last;
      assert Slots(n, csq)[6 * (i - 1)..6 * i] == (prev + last)[|prev|..];
    }
  }

  /** The summary prints csq_excellent as "30". */
  lemma ExcellentText()
    ensures IntToString(CsqExcellent) == "30"
  {
    assert NatToString(3) == "3";
    assert NatToString(30) == NatToString(3) + [DigitChar(0)];
  }

  /** The opening and the closing summary around the 30 slots. */
  lemma BarEnds(csq: int)
    ensures |Bar(csq)| == BodyEnd + |Closing(csq)|
    ensures Bar(csq)[..5] == Opening
    ensures Bar(csq)[BodyEnd..] == Closing(csq)
  {
    var body := Slots(CsqExcellent, csq);
    SlotsLength(CsqExcellent, csq);
    Slices(Opening, body, Closing(csq), 0, 0);
  }

  /** The summary spells out the value and the maximum. */
  lemma ClosingText(csq: int)
    ensures Closing(csq) == "\U{1B}[0m] " + IntToString(csq) + " / 30"
  {
    ExcellentText();
  }

  /** A six-character window of the middle part of a three-part text,
      seen from the whole text. */
  lemma Window(o: string, body: string, close: string, k: nat, w: string)
    requires |w| == 6 && k + 6 <= |body| && body[k..k + 6] == w
    ensures (o + body + close)[|o| + k..|o| + k + 5] == w[..5]
    ensures (o + body + close)[|o| + k + 5] == w[5]
  {
    var d := o + body + close;
    assert d[|o| + k..|o| + k + 6] == w;
    assert d[|o| + k..|o| + k + 5] == w[..5];
  }

  /** The bar starts with a colour reset and `[`, and ends with a colour
      reset and the summary `] <csq> / 30`. */
  lemma BarFrame(csq: int)
    ensures |Bar(csq)| >= BodyEnd
    ensures Bar(csq)[..5] == "\U{1B}[0m["
    ensures Bar(csq)[BodyEnd..] == "\U{1B}[0m] " + IntToString(csq) + " / 30"
  {
    BarEnds(csq);
    ClosingText(csq);
    assert Opening == "\U{1B}[0m[";
  }

  /** Slot i holds the colour of band i and is filled exactly when i <= csq. */
  lemma BarSlot(csq: int, i: int)
    requires 1 <= i <= CsqExcellent
    ensures |Bar(csq)| >= BodyEnd
    ensures ColourAt(Bar(csq), i) == ColourCode(i)
    ensures MarkerAt(Bar(csq), i) == (if i <= csq then '#' else '.')
  {
    var body := Slots(CsqExcellent, csq);
    SlotsAt(CsqExcellent, csq, i);
    SlotShape(i, csq);
    Window(Opening, body, Closing(csq), 6 * (i - 1), Slot(i, csq));
  }

  /** The whole layout: the opening, then in slot i the colour of band i
      and a filled marker exactly when i <= csq, then the closing summary. */
  lemma BarShape(csq: int)
    ensures |Bar(csq)| == BodyEnd + |Closing(csq)|
    ensures Bar(csq)[..5] == Opening
    ensures Bar(csq)[BodyEnd..] == Closing(csq)
    ensures forall i :: 1 <= i <= CsqExcellent ==>
      ColourAt(Bar(csq), i) == ColourCode(i) && MarkerAt(Bar(csq), i) == (if i <= csq then '#' else '.')
  {
    BarEnds(csq);
    forall i | 1 <= i <= CsqExcellent
      ensures ColourAt(Bar(csq), i) == ColourCode(i) && MarkerAt(Bar(csq), i) == (if i <= csq then '#' else '.')
    {
      BarSlot(csq, i);
    }
  }

  /** Every slot carries exactly one marker, '#' or '.', and the filled
      ones form a prefix of the bar. */
  lemma FilledPrefix(csq: int, i: int)
    requires 1 <= i <= CsqExcellent
    ensures |Bar(csq)| >= BodyEnd
    ensures MarkerAt(Bar(csq), i) in {'#', '.'}
    ensures MarkerAt(Bar(csq), i) == '#' ==> forall j :: 1 <= j < i ==> MarkerAt(Bar(csq), j) == '#'
  {
    BarShape(csq);
  }

  /** The colour of a slot is the same whatever the CSQ value. */
  lemma ColourIndependentOfCsq(csq1: int, csq2: int, i: int)
    requires 1 <= i <= CsqExcellent
    ensures |Bar(csq1)| >= BodyEnd && |Bar(csq2)| >= BodyEnd
    ensures ColourAt(Bar(csq1), i) == ColourAt(Bar(csq2), i)
  {
    BarShape(csq1);
    BarShape(csq2);
  }

  /** A slot holds one marker: '#' when filled, '.' otherwise. */
  lemma SlotMarks(i: int, csq: int)
    ensures Count(Slot(i, csq), '#') == (if i <= csq then 1 else 0)
    ensures Count(Slot(i, csq), '.') == (if i <= csq then 0 else 1)
  {
    var c := ColourCode(i);
    var m := [Marker(i, csq)];
    assert c in {Red, Yellow, Green, Blue, ""};
    assert '#' !in c && '.' !in c;
    CountAbsent(c, '#');
    CountAbsent(c, '.');
    CountConcat(c, m, '#');
    CountConcat(c, m, '.');
    assert m[..0] == [];
  }

  lemma {:induction false} SlotsCount(n: nat, csq: int)
    ensures Count(Slots(n, csq), '#') == FilledAmong(csq, n)
    ensures Count(Slots(n, csq), '.') == n - FilledAmong(csq, n)
  {
    if n > 0 {
      SlotsCount(n - 1, csq);
      SlotMarks(n, csq);
      CountConcat(Slots(n - 1, csq), Slot(n, csq), '#');
      CountConcat(Slots(n - 1, csq), Slot(n, csq), '.');
    }
  }

  /** The opening and the summary around the slots hold no marker
      characters: a decimal number has neither '#' nor '.'. */
  lemma FrameHasNoMarker(csq: int)
    ensures Count(Opening, '#') == 0 && Count(Opening, '.') == 0
    ensures Count(Closing(csq), '#') == 0 && Count(Closing(csq), '.') == 0
  {
    assert '#' !in Opening && '.' !in Opening;
    CountAbsent(Opening, '#');
    CountAbsent(Opening, '.');
    var digits := IntToString(csq);
    var tail := IntToString(CsqExcellent);
    assert '#' !in digits && '.' !in digits;
    assert '#' !in tail && '.' !in tail;
    var close := Closing(csq);
    assert close == Reset + "] " + digits + " / " + tail;
    assert '#' !in close && '.' !in close;
    CountAbsent(close, '#');
    CountAbsent(close, '.');
  }

  /** Counting over the whole bar, escapes and summary included: it holds
      exactly min(max(csq, 0), 30) filled markers and 30 markers in all. */
  lemma FilledCount(csq: int)
    ensures Count(Bar(csq), '#') == FilledAmong(csq, CsqExcellent)
    ensures Count(Bar(csq), '#') + Count(Bar(csq), '.') == CsqExcellent
  {
    var body := Slots(CsqExcellent, csq);
    SlotsCount(CsqExcellent, csq);
    FrameHasNoMarker(csq);
    CountConcat(Opening + body, Closing(csq), '#');
    CountConcat(Opening + body, Closing(csq), '.');
    CountConcat(Opening, body, '#');
    CountConcat(Opening, body, '.');
  }
}
