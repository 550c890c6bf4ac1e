/** The fixed table of rateable place attributes: a two-letter code, used in
    the feedback lists of a review, and a display label. */
module Attributes {
  import opened Seqs

  /** The code table, in declaration order. */
  const AttrList: seq<(string, string)> := [
    ("AT", "Atmosphere"),
    ("CL", "Cleanliness"),
    ("DE", "Decor"),
    ("DR", "Drink"),
    ("EN", "Entertainment"),
    ("FO", "Food"),
    ("QU", "Quality"),
    ("SE", "Service"),
    ("SP", "Speed"),
    ("VA", "Value")
  ]

  /** The codes of the table, in order. */
  function Codes(): seq<string> {
    seq(|AttrList|, i requires 0 <= i < |AttrList| => AttrList[i].0)
  }

  /** The table has ten entries, every code has two letters, and neither
      codes nor labels repeat. */
  lemma TableWellFormed()
    ensures |AttrList| == 10 && |Codes()| == 10
    ensures forall i :: 0 <= i < |AttrList| ==> |AttrList[i].0| == 2
    ensures Distinct(Codes())
    ensures forall i, j :: 0 <= i < j < |AttrList| ==> AttrList[i].1 != AttrList[j].1
  {
  }
}
