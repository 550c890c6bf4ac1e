/** The tri-state feedback record of a review: each of ten named attributes is
    rated good (True), poor (False) or left unrated (None). */
module Feedbacks {
  import opened Seqs
  import Attributes

  /** One attribute's state. */
  datatype Rating = Unrated | Rated(flag: bool)

  /** The record, one field per rateable attribute. */
  datatype Feedback = Feedback(
    atmosphere: Rating,
    cleanliness: Rating,
    decor: Rating,
    drink: Rating,
    entertainment: Rating,
    food: Rating,
    quality: Rating,
    service: Rating,
    speed: Rating,
    value: Rating)

  /** A freshly constructed record: nothing rated. */
  const Default: Feedback :=
    Feedback(Unrated, Unrated, Unrated, Unrated, Unrated, Unrated, Unrated, Unrated, Unrated, Unrated)

  /** The names of the rateable fields, in declaration order. The record's
      key fields `id` and `review` are not among them. */
  function FieldNames(): (names: seq<string>)
    ensures |names| == 10 && Distinct(names)
    ensures "id" !in names && "review" !in names
  {
    ["atmosphere", "cleanliness", "decor", "drink", "entertainment",
     "food", "quality", "service", "speed", "value"]
  }

  /** `s` with its first letter, if an upper-case ASCII letter, made lower-case. */
  function LowerInitial(s: string): string {
    if s != [] && 'A' <= s[0] <= 'Z' then [(s[0] as int + 32) as char] + s[1..] else s
  }

  /** The field names follow the attribute code table: the i-th name is the
      i-th label with a lower-case initial. */
  lemma FieldNamesFollowTable()
    ensures |FieldNames()| == |Attributes.AttrList|
    ensures forall i :: 0 <= i < |FieldNames()| ==> FieldNames()[i] == LowerInitial(Attributes.AttrList[i].1)
  {
    forall i | 0 <= i < |FieldNames()|
      ensures FieldNames()[i] == LowerInitial(Attributes.AttrList[i].1)
    {
      FieldNameAt(i);
    }
  }

  lemma FieldNameAt(i: nat)
    requires i < 10
    ensures FieldNames()[i] == LowerInitial(Attributes.AttrList[i].1)
  {
    var names, labels := FieldNames(), Attributes.AttrList;
    var n, l := names[i], labels[i].1;
    assert [(l[0] as int + 32) as char] + l[1..] == n;
  }

  /** The position of a rateable field in declaration order. */
  function FieldIndex(name: string): (i: nat)
    requires name in FieldNames()
    ensures i < |FieldNames()| && FieldNames()[i] == name
  {
    if name == "atmosphere" then 0
    else if name == "cleanliness" then 1
    else if name == "decor" then 2
    else if name == "drink" then 3
    else if name == "entertainment" then 4
    else if name == "food" then 5
    else if name == "quality" then 6
    else if name == "service" then 7
    else if name == "speed" then 8
    else 9
  }

  /** The two-letter code of the attribute a field rates: the code at the
      field's position in the attribute code table. */
  function CodeOf(name: string): string
    requires name in FieldNames()
  {
    Attributes.TableWellFormed();
    Attributes.Codes()[FieldIndex(name)]
  }

  /** Different fields rate attributes with different codes. */
  lemma CodeOfInjective(a: string, b: string)
    requires a in FieldNames() && b in FieldNames()
    ensures a != b ==> CodeOf(a) != CodeOf(b)
  {
    Attributes.TableWellFormed();
    var i, j := FieldIndex(a), FieldIndex(b);
    assert a != b ==> i != j;
  }

  /** The codes of the listed fields, in the same order. Listing no field
      twice lists no code twice. */
  function CodesOf(names: seq<string>): (codes: seq<string>)
    requires forall n :: n in names ==> n in FieldNames()
    ensures Distinct(names) ==> Distinct(codes)
  {
    var codes := seq(|names|, k requires 0 <= k < |names| => CodeOf(names[k]));
    forall i, j | 0 <= i < j < |names| ensures Distinct(names) ==> codes[i] != codes[j] {
      CodeOfInjective(names[i], names[j]);
    }
    codes
  }

  /** The value of a rateable field looked up by its name. */
  function RatingOf(fb: Feedback, name: string): Rating
    requires name in FieldNames()
  {
    if name == "atmosphere" then fb.atmosphere
    else if name == "cleanliness" then fb.cleanliness
    else if name == "decor" then fb.decor
    else if name == "drink" then fb.drink
    else if name == "entertainment" then fb.entertainment
    else if name == "food" then fb.food
    else if name == "quality" then fb.quality
    else if name == "service" then fb.service
    else if name == "speed" then fb.speed
    else fb.value
  }

  /** `a` is `b` with some entries dropped, the rest kept in order. */
  predicate IsSubsequence(a: seq<string>, b: seq<string>)
    decreases |b|
  {
    if a == [] then true
    else if b == [] then false
    else if a[0] == b[0] then IsSubsequence(a[1..], b[1..])
    else IsSubsequence(a, b[1..])
  }

  /** The names among `names` whose field is in state `want`, in the order of
      `names`. */
  function Select(names: seq<string>, fb: Feedback, want: Rating): (r: seq<string>)
    requires Distinct(names)
    requires forall n :: n in names ==> n in FieldNames()
    ensures forall n :: n in r <==> n in names && RatingOf(fb, n) == want
    ensures IsSubsequence(r, names) && Distinct(r)
    decreases |names|
  {
    if names == [] then []
    else
      assert Distinct(names[1..]) by {
        forall i, j | 0 <= i < j < |names[1..]| ensures names[1..][i] != names[1..][j] {
          assert names[1..][i] == names[i + 1] && names[1..][j] == names[j + 1];
        }
      }
      assert names[0] !in names[1..] by {
        forall k | 0 <= k < |names[1..]| ensures names[1..][k] != names[0] {
          assert names[1..][k] == names[k + 1];
        }
      }
      var rest := Select(names[1..], fb, want);
      if RatingOf(fb, names[0]) == want then
        assert ([names[0]] + rest)[1..] == rest;
        [names[0]] + rest
      else
        assert rest == [] || rest[0] != names[0] by {
          if rest != [] { assert rest[0] in rest; }
        }
        rest
  }

  /** `get_feedback(flag)`: the names of the attributes set to `flag`, in field
      order, each once. */
  function GetFeedback(fb: Feedback, flag: bool): (r: seq<string>)
    ensures forall n :: n in r <==> n in FieldNames() && RatingOf(fb, n) == Rated(flag)
    ensures IsSubsequence(r, FieldNames()) && Distinct(r)
  {
    Select(FieldNames(), fb, Rated(flag))
  }

  /** The names of the attributes whose field is set to `flag`. */
  function RatedWith(fb: Feedback, flag: bool): set<string> {
    set n | n in FieldNames() && RatingOf(fb, n) == Rated(flag)
  }

  /** Every name falls in exactly one of the three selections, so their
      lengths add up to the number of names. */
  lemma {:induction false} SelectPartition(names: seq<string>, fb: Feedback)
    requires Distinct(names)
    requires forall n :: n in names ==> n in FieldNames()
    ensures |Select(names, fb, Rated(true))| + |Select(names, fb, Rated(false))|
            + |Select(names, fb, Unrated)| == |names|
  {
    if names != [] {
      assert Distinct(names[1..]) by {
        forall i, j | 0 <= i < j < |names[1..]| ensures names[1..][i] != names[1..][j] {
          assert names[1..][i] == names[i + 1] && names[1..][j] == names[j + 1];
        }
      }
      SelectPartition(names[1..], fb);
    }
  }

  /** `get_counts()`: the number of attributes rated good and the number rated
      poor. No attribute is counted in both, and attributes left unrated are
      counted in neither. */
  function GetCounts(fb: Feedback): (c: (nat, nat))
    ensures c.0 == |RatedWith(fb, true)| && c.1 == |RatedWith(fb, false)|
    ensures c.0 + c.1 + |Select(FieldNames(), fb, Unrated)| == |FieldNames()|
  {
    var good, poor := GetFeedback(fb, true), GetFeedback(fb, false);
    CardElems(good);
    CardElems(poor);
    assert Elems(good) == RatedWith(fb, true);
    assert Elems(poor) == RatedWith(fb, false);
    SelectPartition(FieldNames(), fb);
    (|good|, |poor|)
  }

  /** The two selections never share an attribute, and together with the
      unrated attributes they cover every field. */
  lemma FeedbackPartition(fb: Feedback, n: string)
    requires n in FieldNames()
    ensures !(n in GetFeedback(fb, true) && n in GetFeedback(fb, false))
    ensures n in GetFeedback(fb, true) || n in GetFeedback(fb, false) || RatingOf(fb, n) == Unrated
  {
  }

  /** When every attribute is rated, the two counts add up to ten. */
  lemma CountsWhenAllRated(fb: Feedback)
    requires forall n :: n in FieldNames() ==> RatingOf(fb, n) != Unrated
    ensures GetCounts(fb).0 + GetCounts(fb).1 == 10
  {
    NoElems(Select(FieldNames(), fb, Unrated));
  }

  /** Nothing rated: both selections are empty and the counts are (0, 0). */
  lemma DefaultIsEmpty()
    ensures GetFeedback(Default, true) == [] && GetFeedback(Default, false) == []
    ensures GetCounts(Default) == (0, 0)
  {
    NoElems(GetFeedback(Default, true));
    NoElems(GetFeedback(Default, false));
  }

  /** Atmosphere rated good and cleanliness rated poor: each selection holds
      exactly its own attribute and not the other. */
  lemma OneGoodOnePoor()
    ensures var fb := Default.(atmosphere := Rated(true), cleanliness := Rated(false));
      GetFeedback(fb, true) == ["atmosphere"] && GetFeedback(fb, false) == ["cleanliness"]
  {
    var fb := Default.(atmosphere := Rated(true), cleanliness := Rated(false));
    var good, poor := GetFeedback(fb, true), GetFeedback(fb, false);
    forall n | n in FieldNames()
      ensures (RatingOf(fb, n) == Rated(true) <==> n == "atmosphere")
      ensures (RatingOf(fb, n) == Rated(false) <==> n == "cleanliness")
    {
    }
    assert Elems(good) == {"atmosphere"};
    assert Elems(poor) == {"cleanliness"};
    Singleton(good, "atmosphere");
    Singleton(poor, "cleanliness");
  }

  /** Every attribute set to the same flag. */
  function AllRated(flag: bool): Feedback {
    var r := Rated(flag);
    Feedback(r, r, r, r, r, r, r, r, r, r)
  }

  /** All ten good gives (10, 0); all ten poor gives (0, 10). */
  lemma CountsAllSame(flag: bool)
    ensures GetCounts(AllRated(flag)) == if flag then (10, 0) else (0, 10)
  {
    var fb := AllRated(flag);
    CountsWhenAllRated(fb);
    assert RatedWith(fb, !flag) == {};
  }

  /** Alternating good and poor across the fields: the counts add up to ten. */
  lemma CountsAlternating()
    ensures var t, f := Rated(true), Rated(false);
      var fb := Feedback(t, f, t, f, t, f, t, f, t, f);
      GetCounts(fb).0 + GetCounts(fb).1 == 10
  {
    var t, f := Rated(true), Rated(false);
    CountsWhenAllRated(Feedback(t, f, t, f, t, f, t, f, t, f));
  }
}
