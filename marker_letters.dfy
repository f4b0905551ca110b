/**
 * The letter overlay: each detected marker is labelled with a letter derived
 * from its id by wrapping around the 26-letter alphabet.
 */
module MarkerLetters {
  import opened Wrappers
  import opened Geometry

  const AlphabetSize: int := 26

  /** The marker family is the 4x4 dictionary with 50 ids. */
  const DictionarySize: int := 50

  /** `id_to_letter`: `chr(m_id % 26 + ord('A'))`, Python's `%` being non-negative here. */
  function IdToLetter(markerId: int): (c: char)
    ensures 'A' <= c <= 'Z'
    ensures c as int - 'A' as int == markerId % AlphabetSize
  {
    ((markerId % AlphabetSize) + 'A' as int) as char
  }

  /** Ids wrap with period 26, negative ids included. */
  lemma LetterPeriodic(markerId: int, turns: int)
    ensures IdToLetter(markerId + AlphabetSize * turns) == IdToLetter(markerId)
  {
  }

  /** The ids 0..25 spell the alphabet in order, so no two of them share a letter. */
  lemma AlphabetInOrder(a: int, b: int)
    requires 0 <= a < b < AlphabetSize
    ensures IdToLetter(a) < IdToLetter(b)
    ensures IdToLetter(a) as int == 'A' as int + a
  {
  }

  /** Among the dictionary's ids, two share a letter exactly when they are 26 apart (or equal). */
  lemma DictionaryCollisions(a: int, b: int)
    requires 0 <= a < DictionarySize && 0 <= b < DictionarySize
    ensures IdToLetter(a) == IdToLetter(b) <==> a == b || a - b == AlphabetSize || b - a == AlphabetSize
  {
  }

  /** Negative ids also land in the alphabet: -1 is 'Z', -26 is 'A'. */
  lemma NegativeIds()
    ensures IdToLetter(-1) == 'Z' && IdToLetter(-26) == 'A' && IdToLetter(-27) == 'Z'
  {
  }

  /** A letter placed at a marker's center. */
  datatype LetterLabel = LetterLabel(letter: char, org: Point)

  /**
   * The letter script's frame body: for every corner group i (its center
   * given as integer pixels), the letter of `ids[i][0]`.  The detector
   * returns ids and corner groups index-aligned.
   */
  method LabelMarkers(ids: Option<seq<int>>, centers: seq<Point>) returns (labels: seq<LetterLabel>)
    requires ids.Some? ==> |ids.value| == |centers|
    ensures ids.None? ==> labels == []
    ensures ids.Some? ==> |labels| == |centers|
    ensures ids.Some? ==> forall i :: 0 <= i < |labels| ==>
      labels[i].org == centers[i] && labels[i].letter == IdToLetter(ids.value[i])
    ensures forall i :: 0 <= i < |labels| ==> 'A' <= labels[i].letter <= 'Z'
  {
    labels := [];
    if ids.Some? {
      var i := 0;
      while i < |centers|
        invariant 0 <= i <= |centers|
        invariant |labels| == i
        invariant forall k :: 0 <= k < i ==> labels[k].org == centers[k] && labels[k].letter == IdToLetter(ids.value[k])
      {
        labels := labels + [LetterLabel(IdToLetter(ids.value[i]), centers[i])];
        i := i + 1;
      }
    }
  }
}
