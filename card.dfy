/**
 * A flashcard in the Leitner box system (models/card.py): the mutable `Card`
 * object, its plain field record, and the dict form exchanged by `to_dict` and
 * `from_dict`. The wall clock is the `now` parameter.
 */
module Cards {
  import opened Wrappers
  import opened Json
  import opened Leitner
  import opened CardContents

  /** Every field of a card, as `to_dict` lists them. */
  datatype CardFields = CardFields(
    id: Option<int>,
    front: Side,
    back: Side,
    box: int,
    createdAt: string,
    lastReviewed: Option<string>,
    reviewCount: int)

  /** `created_at or now`: a missing or empty creation stamp is replaced by the clock. */
  function Stamp(createdAt: Option<string>, now: string): (s: string)
    requires now != ""
    ensures s != ""
    ensures createdAt.Some? && createdAt.value != "" ==> s == createdAt.value
  {
    if createdAt.Some? && createdAt.value != "" then createdAt.value else now
  }

  /** The constructor's field assignments. */
  function Construct(front: Side, back: Side, cardId: Option<int>, box: int, createdAt: Option<string>,
                     lastReviewed: Option<string>, reviewCount: int, now: string): CardFields
    requires now != ""
  {
    CardFields(cardId, front, back, box, Stamp(createdAt, now), lastReviewed, reviewCount)
  }

  /** `Card(front, back)`: the constructor with all other arguments left at their defaults. */
  function NewCard(front: Side, back: Side, now: string): (f: CardFields)
    requires now != ""
    ensures f.id == None && f.front == front && f.back == back
    ensures f.box == MinBox && f.reviewCount == 0 && f.lastReviewed == None
    ensures f.createdAt != ""
  {
    Construct(front, back, None, 1, None, None, 0, now)
  }

  /** The effect of `review(correct)` stamped at `now`. */
  function Reviewed(f: CardFields, correct: bool, now: string): (r: CardFields)
    ensures correct ==> r.box == Min(f.box + 1, MaxBox)
    ensures !correct ==> r.box == MinBox
    ensures MinBox <= f.box <= MaxBox ==> MinBox <= r.box <= MaxBox
    ensures r.reviewCount == f.reviewCount + 1 && r.lastReviewed == Some(now)
    ensures r.id == f.id && r.front == f.front && r.back == f.back && r.createdAt == f.createdAt
  {
    f.(box := NextBox(f.box, correct), lastReviewed := Some(now), reviewCount := f.reviewCount + 1)
  }

  /** The effect of `update(front, back)`: only the sides that are given are replaced. */
  function Edited(f: CardFields, front: Option<Side>, back: Option<Side>): (r: CardFields)
    ensures front.Some? ==> r.front == front.value
    ensures front.None? ==> r.front == f.front
    ensures back.Some? ==> r.back == back.value
    ensures back.None? ==> r.back == f.back
    ensures r.(front := f.front, back := f.back) == f
  {
    f.(front := if front.Some? then front.value else f.front,
       back := if back.Some? then back.value else f.back)
  }

  // ---------------------------------------------------------------------------
  // Review history

  datatype ReviewEvent = ReviewEvent(correct: bool, at: string)

  function Outcomes(events: seq<ReviewEvent>): (o: seq<bool>)
    ensures |o| == |events|
    ensures forall i | 0 <= i < |o| :: o[i] == events[i].correct
  {
    seq(|events|, i requires 0 <= i < |events| => events[i].correct)
  }

  /** The card after a run of reviews, applied in order. */
  function Replay(f: CardFields, events: seq<ReviewEvent>): CardFields
  {
    if events == [] then f
    else
      var last := events[|events| - 1];
      Reviewed(Replay(f, events[..|events| - 1]), last.correct, last.at)
  }

  /**
   * After k reviews the count has grown by exactly k, the stamp is that of the
   * last review (unchanged when there was none), the box is the Leitner box the
   * answers lead to, and the id, sides and creation stamp are untouched.
   */
  lemma {:induction false} ReplayFacts(f: CardFields, events: seq<ReviewEvent>)
    ensures Replay(f, events).reviewCount == f.reviewCount + |events|
    ensures Replay(f, events).box == BoxAfter(f.box, Outcomes(events))
    ensures Replay(f, events).lastReviewed
         == if events == [] then f.lastReviewed else Some(events[|events| - 1].at)
    ensures Replay(f, events).(box := f.box, lastReviewed := f.lastReviewed, reviewCount := f.reviewCount) == f
  {
    if events != [] {
      var init := events[..|events| - 1];
      ReplayFacts(f, init);
      assert Outcomes(events)[..|events| - 1] == Outcomes(init);
    }
  }

  /**
   * A card created by `Card(front, back)` and reviewed k times has a review count
   * of k, a last-review stamp exactly when k > 0, and a box in 1..5.
   */
  lemma ReviewHistory(front: Side, back: Side, now: string, events: seq<ReviewEvent>)
    requires now != ""
    ensures Replay(NewCard(front, back, now), events).reviewCount == |events|
    ensures Replay(NewCard(front, back, now), events).lastReviewed.Some? <==> |events| > 0
    ensures MinBox <= Replay(NewCard(front, back, now), events).box <= MaxBox
  {
    ReplayFacts(NewCard(front, back, now), events);
    BoxAfterInRange(MinBox, Outcomes(events));
  }

  // ---------------------------------------------------------------------------
  // Dict form

  const CardKeys: set<string> := {"id", "front", "back", "box", "created_at", "last_reviewed", "review_count"}

  /**
   * A structured side as `to_dict` writes it back: the `type`/`value`/`alt_text`
   * object the client sent, kept whole, so an `alt_text` is present whenever the
   * content has one, even an empty one.
   */
  function ContentJson(c: CardContent): (v: Value)
    ensures v.Object? && v.fields.Keys <= {"type", "value", "alt_text"}
    ensures "alt_text" in v.fields <==> c.altText.Some?
    ensures CardContents.FromDict(v) == Ok(c)
  {
    var base := map["type" := Str(TypeName(c.kind)), "value" := Str(c.value)];
    Object(if c.altText.Some? then base["alt_text" := Str(c.altText.value)] else base)
  }

  /** A side as stored in the dict: the bare string, or the content object unchanged. */
  function SideToJson(s: Side): (v: Value)
    ensures SideFromJson(v, "front") == Ok(s)
    ensures SideFromJson(v, "back") == Ok(s)
  {
    match s
    case Raw(t) => Str(t)
    case Structured(c) => ContentJson(c)
  }

  /** A side read from the dict: a string stays raw, an object must be a content dict. */
  function SideFromJson(v: Value, key: string): (r: Result<Side, DecodeError>)
    ensures v.Str? ==> r == Ok(Raw(v.s))
    ensures r.Ok? ==> v.Str? || v.Object?
  {
    match v
    case Str(t) => Ok(Raw(t))
    case Object(_) =>
      (match CardContents.FromDict(v)
       case Ok(c) => Ok(Structured(c))
       case Err(e) => Err(e))
    case _ => Err(WrongType(key))
  }

  function OptionalIntToJson(o: Option<int>): Value
  {
    if o.Some? then Int(o.value) else Null
  }

  function OptionalStringToJson(o: Option<string>): Value
  {
    if o.Some? then Str(o.value) else Null
  }

  /** `to_dict`: all seven keys, always present; absent optional values are written as null. */
  function ToDict(f: CardFields): (v: Value)
    ensures v.Object? && v.fields.Keys == CardKeys
    ensures v.fields["box"] == Int(f.box) && v.fields["review_count"] == Int(f.reviewCount)
    ensures v.fields["last_reviewed"] == Null <==> f.lastReviewed == None
  {
    Object(map[
      "id" := OptionalIntToJson(f.id),
      "front" := SideToJson(f.front),
      "back" := SideToJson(f.back),
      "box" := Int(f.box),
      "created_at" := Str(f.createdAt),
      "last_reviewed" := OptionalStringToJson(f.lastReviewed),
      "review_count" := Int(f.reviewCount)])
  }

  /**
   * `from_dict`: `front` and `back` are required; `box` defaults to 1 and
   * `review_count` to 0 when absent; `box` is not range-checked; the creation
   * stamp goes through the constructor's `created_at or now`.
   */
  function FromDict(data: Value, now: string): (r: Result<CardFields, DecodeError>)
    requires now != ""
    ensures data.Object? && ("front" !in data.fields || "back" !in data.fields) ==> r.Err?
    ensures r.Ok? ==> data.Object?
    ensures r.Ok? && "box" !in data.fields ==> r.value.box == MinBox
    ensures r.Ok? && "box" in data.fields ==> data.fields["box"] == Int(r.value.box)
    ensures r.Ok? && "review_count" !in data.fields ==> r.value.reviewCount == 0
    ensures r.Ok? ==> r.value.createdAt != ""
  {
    if !data.Object? then Err(NotAnObject)
    else
      var m := data.fields;
      if "front" !in m then Err(MissingKey("front"))
      else if "back" !in m then Err(MissingKey("back"))
      else
        match (OptionalInt(m, "id"), SideFromJson(m["front"], "front"), SideFromJson(m["back"], "back"),
               IntOr(m, "box", 1), OptionalString(m, "created_at"), OptionalString(m, "last_reviewed"),
               IntOr(m, "review_count", 0))
        case (Ok(id), Ok(front), Ok(back), Ok(box), Ok(created), Ok(last), Ok(count)) =>
          Ok(Construct(front, back, id, box, created, last, count, now))
        case (Err(e), _, _, _, _, _, _) => Err(e)
        case (_, Err(e), _, _, _, _, _) => Err(e)
        case (_, _, Err(e), _, _, _, _) => Err(e)
        case (_, _, _, Err(e), _, _, _) => Err(e)
        case (_, _, _, _, Err(e), _, _) => Err(e)
        case (_, _, _, _, _, Err(e), _) => Err(e)
        case (_, _, _, _, _, _, Err(e)) => Err(e)
  }

  /** Reading a card's dict back reproduces every field, whatever its box (in range or not). */
  lemma RoundTrip(f: CardFields, now: string)
    requires now != "" && f.createdAt != ""
    ensures FromDict(ToDict(f), now) == Ok(f)
  {
  }

  // ---------------------------------------------------------------------------
  // The mutable card

  class Card {
    var id: Option<int>
    var front: Side
    var back: Side
    var box: int
    var createdAt: string
    var lastReviewed: Option<string>
    var reviewCount: int

    function Fields(): CardFields
      reads this
    {
      CardFields(id, front, back, box, createdAt, lastReviewed, reviewCount)
    }

    constructor(front: Side, back: Side, cardId: Option<int>, box: int, createdAt: Option<string>,
                lastReviewed: Option<string>, reviewCount: int, now: string)
      requires now != ""
      ensures Fields() == Construct(front, back, cardId, box, createdAt, lastReviewed, reviewCount, now)
      ensures this.createdAt != ""
    {
      this.id := cardId;
      this.front := front;
      this.back := back;
      this.box := box;
      this.createdAt := Stamp(createdAt, now);
      this.lastReviewed := lastReviewed;
      this.reviewCount := reviewCount;
    }

    /** `review(correct)`: moves the card per the Leitner rule and records the review. */
    method Review(correct: bool, now: string) returns (newBox: int)
      modifies this`box, this`lastReviewed, this`reviewCount
      ensures Fields() == Reviewed(old(Fields()), correct, now)
      ensures box == NextBox(old(box), correct) && newBox == box
      ensures reviewCount == old(reviewCount) + 1 && lastReviewed == Some(now)
      ensures MinBox <= old(box) <= MaxBox ==> MinBox <= box <= MaxBox
    {
      if correct {
        box := Min(box + 1, MaxBox);
      } else {
        box := MinBox;
      }
      lastReviewed := Some(now);
      reviewCount := reviewCount + 1;
      newBox := box;
    }

    /** `update(front, back)`: replaces only the sides that are given. */
    method Update(front: Option<Side>, back: Option<Side>)
      modifies this`front, this`back
      ensures Fields() == Edited(old(Fields()), front, back)
      ensures front.None? ==> this.front == old(this.front)
      ensures back.None? ==> this.back == old(this.back)
    {
      if front.Some? {
        this.front := front.value;
      }
      if back.Some? {
        this.back := back.value;
      }
    }
  }
}
