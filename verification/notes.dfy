/** The note table and the nearest-note lookup with its cents sign. */
module Notes {
  import opened Results

  /** A named reference pitch of twelve-tone equal temperament, in Hz. */
  datatype Note = Note(name: string, freq: real)

  /** The notes C0 to C9, in the order the source lists them, one octave per row. */
  const NoteTable: seq<Note> :=
    Octave0 + Octave1 + Octave2 + Octave3 + Octave4 + Octave5 + Octave6 + Octave7 + Octave8
    + [Note("C9", 8372.02)]

  const Octave0: seq<Note> := [
    Note("C0", 16.35), Note("C#0", 17.32), Note("D0", 18.35), Note("D#0", 19.45), Note("E0", 20.60), Note("F0", 21.83),
    Note("F#0", 23.12), Note("G0", 24.50), Note("G#0", 25.96), Note("A0", 27.50), Note("A#0", 29.14), Note("B0", 30.87)
  ]
  const Octave1: seq<Note> := [
    Note("C1", 32.70), Note("C#1", 34.65), Note("D1", 36.71), Note("D#1", 38.89), Note("E1", 41.20), Note("F1", 43.65),
    Note("F#1", 46.25), Note("G1", 49.00), Note("G#1", 51.91), Note("A1", 55.00), Note("A#1", 58.27), Note("B1", 61.74)
  ]
  const Octave2: seq<Note> := [
    Note("C2", 65.41), Note("C#2", 69.30), Note("D2", 73.42), Note("D#2", 77.78), Note("E2", 82.41), Note("F2", 87.31),
    Note("F#2", 92.50), Note("G2", 98.00), Note("G#2", 103.83), Note("A2", 110.00), Note("A#2", 116.54), Note("B2", 123.47)
  ]
  const Octave3: seq<Note> := [
    Note("C3", 130.81), Note("C#3", 138.59), Note("D3", 146.83), Note("D#3", 155.56), Note("E3", 164.81), Note("F3", 174.61),
    Note("F#3", 185.00), Note("G3", 196.00), Note("G#3", 207.65), Note("A3", 220.00), Note("A#3", 233.08), Note("B3", 246.94)
  ]
  const Octave4: seq<Note> := [
    Note("C4", 261.63), Note("C#4", 277.18), Note("D4", 293.66), Note("D#4", 311.13), Note("E4", 329.63), Note("F4", 349.23),
    Note("F#4", 369.99), Note("G4", 392.00), Note("G#4", 415.30), Note("A4", 440.00), Note("A#4", 466.16), Note("B4", 493.88)
  ]
  const Octave5: seq<Note> := [
    Note("C5", 523.25), Note("C#5", 554.37), Note("D5", 587.33), Note("D#5", 622.25), Note("E5", 659.26), Note("F5", 698.46),
    Note("F#5", 739.99), Note("G5", 783.99), Note("G#5", 830.61), Note("A5", 880.00), Note("A#5", 932.33), Note("B5", 987.77)
  ]
  const Octave6: seq<Note> := [
    Note("C6", 1046.50), Note("C#6", 1108.73), Note("D6", 1174.66), Note("D#6", 1244.51), Note("E6", 1318.51), Note("F6", 1396.91),
    Note("F#6", 1479.98), Note("G6", 1567.98), Note("G#6", 1661.22), Note("A6", 1760.00), Note("A#6", 1864.66), Note("B6", 1975.53)
  ]
  const Octave7: seq<Note> := [
    Note("C7", 2093.00), Note("C#7", 2217.46), Note("D7", 2349.32), Note("D#7", 2490.91), Note("E7", 2637.02), Note("F7", 2793.83),
    Note("F#7", 2959.96), Note("G7", 3135.96), Note("G#7", 3322.44), Note("A7", 3520.00), Note("A#7", 3729.31), Note("B7", 3951.07)
  ]
  const Octave8: seq<Note> := [
    Note("C8", 4186.01), Note("C#8", 4434.92), Note("D8", 4698.64), Note("D#8", 4981.82), Note("E8", 5274.04), Note("F8", 5587.66),
    Note("F#8", 5919.92), Note("G8", 6271.92), Note("G#8", 6644.88), Note("A8", 7040.00), Note("A#8", 7458.62), Note("B8", 7902.14)
  ]

  function Abs(x: real): real {
    if x < 0.0 then -x else x
  }

  /** Distance in Hz from frequency f to the i-th note of a table. */
  function Dist(t: seq<Note>, f: real, i: nat): real
    requires i < |t|
  {
    Abs(f - t[i].freq)
  }

  /** No entry of t is strictly closer to f than entry k. */
  ghost predicate Closest(t: seq<Note>, f: real, k: nat)
    requires k < |t|
  {
    forall j :: 0 <= j < |t| ==> Dist(t, f, k) <= Dist(t, f, j)
  }

  /** Every entry before k is strictly farther from f than entry k. */
  ghost predicate FirstOfTies(t: seq<Note>, f: real, k: nat)
    requires k < |t|
  {
    forall j :: 0 <= j < k ==> Dist(t, f, j) > Dist(t, f, k)
  }

  /** The argmin loop from entry i on, with best the entry that holds the smallest
      distance so far; an entry replaces it only when strictly closer. */
  function NearestFrom(t: seq<Note>, f: real, i: nat, best: nat): (k: nat)
    requires best < i <= |t|
    requires forall j :: 0 <= j < i ==> Dist(t, f, best) <= Dist(t, f, j)
    requires forall j :: 0 <= j < best ==> Dist(t, f, j) > Dist(t, f, best)
    ensures k < |t|
    ensures Closest(t, f, k)
    ensures FirstOfTies(t, f, k)
    decreases |t| - i
  {
    if i == |t| then best
    else if Dist(t, f, i) < Dist(t, f, best) then NearestFrom(t, f, i + 1, i)
    else NearestFrom(t, f, i + 1, best)
  }

  /** Index of the note of t nearest to f. The first entry always replaces the
      source's initial infinite distance, so the loop starts with it as best. */
  function Nearest(t: seq<Note>, f: real): (k: nat)
    requires |t| > 0
    ensures k < |t|
    ensures Closest(t, f, k)
    ensures FirstOfTies(t, f, k)
  {
    NearestFrom(t, f, 1, 0)
  }

  /** The sign marker shown before a cents value: "+" above, nothing below, "0" on pitch. */
  function Sign(cents: real): (s: string)
    ensures s == "+" <==> cents > 0.0
    ensures s == "" <==> cents < 0.0
    ensures s == "0" <==> cents == 0.0
  {
    if cents > 0.0 then "+" else if cents < 0.0 then "" else "0"
  }

  /** A note name, the deviation from it in cents, and the sign marker. */
  datatype Reading = Reading(name: string, cents: real, sign: string)

  /** log2 is positive above 1 and negative below 1, as the base-2 logarithm is. */
  ghost predicate PreservesSign(log2: real -> real) {
    forall x: real :: x > 0.0 ==> (log2(x) > 0.0 <==> x > 1.0) && (log2(x) < 0.0 <==> x < 1.0)
  }

  /** calculate_note: the nearest table note, the cents 1200 * log2(f / note) and its sign.
      The logarithm is a parameter; a non-positive frequency has no logarithm (MathDomain). */
  function CalculateNote(f: real, log2: real -> real): (r: Result<Reading>)
    ensures r.Failure? <==> f <= 0.0
    ensures r.Failure? ==> r.error == MathDomain
    ensures r.Success? ==> exists k :: 0 <= k < |NoteTable| && r.value.name == NoteTable[k].name
                                        && Closest(NoteTable, f, k) && FirstOfTies(NoteTable, f, k)
  {
    var k := Nearest(NoteTable, f);
    TableAscending();
    if f <= 0.0 then Failure(MathDomain)
    else
      var cents := 1200.0 * log2(f / NoteTable[k].freq);
      Success(Reading(NoteTable[k].name, cents, Sign(cents)))
  }

  /** Frequencies are positive and strictly ascending along t. */
  ghost predicate Ascending(t: seq<Note>) {
    forall j, l :: 0 <= j < l < |t| ==> 0.0 < t[j].freq < t[l].freq
  }

  /** The same check entry by entry, from entry i on, as a computation. */
  predicate AscendingFrom(t: seq<Note>, i: nat)
    decreases |t| - i
  {
    i >= |t| || (t[i].freq > 0.0 && (i + 1 < |t| ==> t[i].freq < t[i + 1].freq) && AscendingFrom(t, i + 1))
  }

  lemma {:induction false} AscendingFromOrders(t: seq<Note>, i: nat)
    requires AscendingFrom(t, i)
    ensures forall j, l :: i <= j < l < |t| ==> 0.0 < t[j].freq < t[l].freq
    decreases |t| - i
  {
    if i < |t| {
      AscendingFromOrders(t, i + 1);
    }
  }

  lemma AscendingConcat(s: seq<Note>, t: seq<Note>)
    requires Ascending(s) && Ascending(t)
    requires |s| > 0 && |t| > 0 && 0.0 < s[|s| - 1].freq < t[0].freq
    ensures Ascending(s + t)
  {
    var u := s + t;
    forall j, l | 0 <= j < l < |u|
      ensures 0.0 < u[j].freq < u[l].freq
    {
      if j < |s| && |s| <= l {
        assert s[j].freq <= s[|s| - 1].freq;
        assert t[0].freq <= t[l - |s|].freq;
      }
    }
  }

  lemma Octave0Ascending()
    ensures Ascending(Octave0)
  {
    assert AscendingFrom(Octave0, 0);
    AscendingFromOrders(Octave0, 0);
  }

  lemma Octave1Ascending()
    ensures Ascending(Octave1)
  {
    assert AscendingFrom(Octave1, 0);
    AscendingFromOrders(Octave1, 0);
  }

  lemma Octave2Ascending()
    ensures Ascending(Octave2)
  {
    assert AscendingFrom(Octave2, 0);
    AscendingFromOrders(Octave2, 0);
  }

  lemma Octave3Ascending()
    ensures Ascending(Octave3)
  {
    assert AscendingFrom(Octave3, 0);
    AscendingFromOrders(Octave3, 0);
  }

  lemma Octave4Ascending()
    ensures Ascending(Octave4)
  {
    assert AscendingFrom(Octave4, 0);
    AscendingFromOrders(Octave4, 0);
  }

  lemma Octave5Ascending()
    ensures Ascending(Octave5)
  {
    assert AscendingFrom(Octave5, 0);
    AscendingFromOrders(Octave5, 0);
  }

  lemma Octave6Ascending()
    ensures Ascending(Octave6)
  {
    assert AscendingFrom(Octave6, 0);
    AscendingFromOrders(Octave6, 0);
  }

  lemma Octave7Ascending()
    ensures Ascending(Octave7)
  {
    assert AscendingFrom(Octave7, 0);
    AscendingFromOrders(Octave7, 0);
  }

  lemma Octave8Ascending()
    ensures Ascending(Octave8)
  {
    assert AscendingFrom(Octave8, 0);
    AscendingFromOrders(Octave8, 0);
  }

  /** The note table lists positive frequencies in strictly ascending order. */
  lemma TableAscending()
    ensures Ascending(NoteTable)
  {
    Octave0Ascending();
    Octave1Ascending();
    Octave2Ascending();
    Octave3Ascending();
    Octave4Ascending();
    Octave5Ascending();
    Octave6Ascending();
    Octave7Ascending();
    Octave8Ascending();
    var t := Octave0;
    AscendingConcat(t, Octave1);
    t := t + Octave1;
    AscendingConcat(t, Octave2);
    t := t + Octave2;
    AscendingConcat(t, Octave3);
    t := t + Octave3;
    AscendingConcat(t, Octave4);
    t := t + Octave4;
    AscendingConcat(t, Octave5);
    t := t + Octave5;
    AscendingConcat(t, Octave6);
    t := t + Octave6;
    AscendingConcat(t, Octave7);
    t := t + Octave7;
    AscendingConcat(t, Octave8);
    t := t + Octave8;
    AscendingConcat(t, [Note("C9", 8372.02)]);
  }

  /** With the table in ascending order, the first of the equally close entries is the
      one of lowest frequency. */
  lemma NearestLowestOfTies(t: seq<Note>, f: real, j: nat)
    requires |t| > 0 && Ascending(t)
    requires j < |t| && Dist(t, f, j) == Dist(t, f, Nearest(t, f))
    ensures t[Nearest(t, f)].freq <= t[j].freq
  {
    var k := Nearest(t, f);
    assert !(j < k);
    if k < j {
      assert t[k].freq < t[j].freq;
    }
  }

  /** A frequency exactly halfway between C0 and C#0 resolves to C0, the first listed. */
  lemma NearestTieGoesFirst()
    ensures Nearest(NoteTable, 16.835) == 0
  {
    TableAscending();
    var k := Nearest(NoteTable, 16.835);
    assert NoteTable[0].freq == 16.35;
    assert NoteTable[1].freq == 17.32;
    assert Dist(NoteTable, 16.835, 0) == 0.485;
  }

  /** The A4 reference pitch resolves to A4, zero cents, sign "0". */
  lemma CalculateNoteA4(log2: real -> real)
    requires log2(1.0) == 0.0
    ensures CalculateNote(440.0, log2) == Success(Reading("A4", 0.0, "0"))
  {
    TableAscending();
    var k := Nearest(NoteTable, 440.0);
    assert NoteTable[57] == Note("A4", 440.0);
    assert Dist(NoteTable, 440.0, 57) == 0.0;
    assert NoteTable[k].freq == 440.0;
    assert 440.0 / NoteTable[k].freq == 1.0;
  }

  lemma ProductSign(x: real, y: real)
    requires y > 0.0
    ensures x > 0.0 <==> x * y > 0.0
    ensures x < 0.0 <==> x * y < 0.0
  {
    if x > 0.0 {
      assert x * y > 0.0;
    } else if x < 0.0 {
      assert (-x) * y > 0.0;
    }
  }

  /** The sign of the cents between f and a positive reference follows f against it. */
  lemma SignOfRatio(f: real, note: real, log2: real -> real)
    requires f > 0.0 && note > 0.0
    requires PreservesSign(log2)
    ensures var sign := Sign(1200.0 * log2(f / note));
            && (sign == "+" <==> f > note)
            && (sign == "" <==> f < note)
            && (sign == "0" <==> f == note)
  {
    var ratio := f / note;
    var d := ratio - 1.0;
    assert ratio * note == f;
    assert d * note == f - note;
    ProductSign(d, note);
    assert (log2(ratio) > 0.0 <==> ratio > 1.0) && (log2(ratio) < 0.0 <==> ratio < 1.0);
  }

  /** The sign marker tells whether the frequency is above, below or on its nearest note. */
  lemma SignMatchesPitch(f: real, log2: real -> real)
    requires f > 0.0
    requires PreservesSign(log2)
    ensures var r := CalculateNote(f, log2).value;
            var note := NoteTable[Nearest(NoteTable, f)].freq;
            && (r.sign == "+" <==> f > note)
            && (r.sign == "" <==> f < note)
            && (r.sign == "0" <==> f == note)
  {
    TableAscending();
    var note := NoteTable[Nearest(NoteTable, f)].freq;
    SignOfRatio(f, note, log2);
  }
}
