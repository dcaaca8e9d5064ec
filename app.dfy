/**
 * The in-memory card store behind the HTTP handlers of app.py: the `cards` list,
 * the `boxes` buckets 1..5 of card ids, and the bodies of the create, detail,
 * update, delete, box-summary and review handlers. Handler outcomes are values
 * instead of HTTP responses; the wall clock is the `now` parameter.
 */
module App {
  import opened Wrappers
  import opened Json
  import opened Leitner
  import opened CardContents
  import opened Cards

  /** The two module-level structures of app.py, as one value. */
  datatype StoreState = StoreState(cards: seq<CardFields>, boxes: map<int, seq<int>>)

  /** What a handler answers; BadRequest and NotFound are the 400 and 404 replies. */
  datatype Outcome =
    | Created(card: CardFields)
    | Found(card: CardFields)
    | Updated(card: CardFields)
    | Deleted
    | Moved(card: CardFields, movedFrom: int, movedTo: int)
    | BadRequest
    | NotFound

  /** One entry of the box summary. */
  datatype BoxRow = BoxRow(number: int, cardCount: int, cards: seq<CardFields>)

  // ---------------------------------------------------------------------------
  // List operations on a bucket

  /** `s.index(x)`: the first position holding x. */
  function FirstIndex(s: seq<int>, x: int): (i: nat)
    requires x in s
    ensures i < |s| && s[i] == x && x !in s[..i]
  {
    if s[0] == x then 0 else 1 + FirstIndex(s[1..], x)
  }

  /** `s.remove(x)`: drops the first occurrence of x and keeps the order of the rest. */
  function RemoveFirst(s: seq<int>, x: int): (r: seq<int>)
    requires x in s
    ensures multiset(r) == multiset(s) - multiset{x}
  {
    var i := FirstIndex(s, x);
    assert s == s[..i] + [x] + s[i + 1..];
    s[..i] + s[i + 1..]
  }

  /** `if x in s: s.remove(x)`. */
  function Discard(s: seq<int>, x: int): (r: seq<int>)
    ensures x !in s ==> r == s
    ensures x in s ==> |r| == |s| - 1
  {
    if x in s then RemoveFirst(s, x) else s
  }

  /** Discarding takes away one occurrence of x, if there is one, and leaves every other value's count alone. */
  lemma DiscardCount(s: seq<int>, x: int)
    ensures multiset(Discard(s, x)) == multiset(s) - multiset{x}
  {
  }

  /** The loop over `boxes.values()` in the delete handler. */
  function Purge(boxes: map<int, seq<int>>, x: int): (r: map<int, seq<int>>)
    ensures r.Keys == boxes.Keys
  {
    map k | k in boxes :: Discard(boxes[k], x)
  }

  /** The buckets part-way through that loop: those numbered below k are done. */
  function PurgedBelow(boxes: map<int, seq<int>>, x: int, k: int): (r: map<int, seq<int>>)
    ensures r.Keys == boxes.Keys
  {
    map b | b in boxes :: if b < k then Discard(boxes[b], x) else boxes[b]
  }

  lemma PurgedBelowNothing(boxes: map<int, seq<int>>, x: int)
    requires forall b | b in boxes :: MinBox <= b
    ensures PurgedBelow(boxes, x, MinBox) == boxes
  {
  }

  lemma PurgedBelowStep(boxes: map<int, seq<int>>, x: int, k: int)
    requires k in boxes
    ensures PurgedBelow(boxes, x, k)[k] == boxes[k]
    ensures PurgedBelow(boxes, x, k + 1) == PurgedBelow(boxes, x, k)[k := Discard(boxes[k], x)]
  {
  }

  lemma PurgedBelowAll(boxes: map<int, seq<int>>, x: int)
    requires forall b | b in boxes :: b <= MaxBox
    ensures PurgedBelow(boxes, x, MaxBox + 1) == Purge(boxes, x)
  {
  }

  /** `cards.remove(cards[i])`: the list without its i-th element. */
  function Without(cards: seq<CardFields>, i: nat): (r: seq<CardFields>)
    requires i < |cards|
    ensures |r| == |cards| - 1
    ensures forall j | 0 <= j < i :: r[j] == cards[j]
    ensures forall j | i <= j < |r| :: r[j] == cards[j + 1]
  {
    cards[..i] + cards[i + 1..]
  }

  /** `next((c for c in cards if c['id'] == id), None)`: the first card with that id. */
  function IndexOf(cards: seq<CardFields>, id: int): (r: Option<nat>)
    ensures r.Some? ==> r.value < |cards| && cards[r.value].id == Some(id)
    ensures r.Some? ==> forall j | 0 <= j < r.value :: cards[j].id != Some(id)
    ensures r.None? <==> forall j | 0 <= j < |cards| :: cards[j].id != Some(id)
  {
    if cards == [] then None
    else if cards[0].id == Some(id) then Some(0)
    else match IndexOf(cards[1..], id)
      case None => None
      case Some(i) => Some(i + 1)
  }

  // ---------------------------------------------------------------------------
  // The cross-structure invariant

  /** What every handler keeps regardless of ids: the five buckets, and each card's box among them. */
  predicate WellFormed(s: StoreState)
  {
    && (forall k | k in s.boxes :: MinBox <= k <= MaxBox)
    && (forall k | MinBox <= k <= MaxBox :: k in s.boxes)
    && forall i | 0 <= i < |s.cards| :: s.cards[i].id.Some? && MinBox <= s.cards[i].box <= MaxBox
  }

  function Ids(cards: seq<CardFields>): set<int>
  {
    set i | 0 <= i < |cards| && cards[i].id.Some? :: cards[i].id.value
  }

  predicate UniqueIds(cards: seq<CardFields>)
  {
    forall i, j | 0 <= i < j < |cards| :: cards[i].id != cards[j].id
  }

  /** Each card's id occurs exactly once in the bucket of its box and nowhere else. */
  predicate Placed(s: StoreState)
    requires WellFormed(s)
  {
    forall i, k | 0 <= i < |s.cards| && k in s.boxes ::
      multiset(s.boxes[k])[s.cards[i].id.value] == if k == s.cards[i].box then 1 else 0
  }

  /** No bucket holds the id of a card that is gone. */
  predicate NoStrays(s: StoreState)
  {
    forall k, x | k in s.boxes && x in s.boxes[k] :: x in Ids(s.cards)
  }

  predicate Consistent(s: StoreState)
  {
    WellFormed(s) && UniqueIds(s.cards) && Placed(s) && NoStrays(s)
  }

  /** In a consistent store the buckets holding a card's id are exactly the one of its box. */
  lemma ExactlyOneBucket(s: StoreState, i: nat)
    requires Consistent(s) && i < |s.cards|
    ensures (set k | k in s.boxes && s.cards[i].id.value in s.boxes[k]) == {s.cards[i].box}
  {
    var id := s.cards[i].id.value;
    forall k | k in s.boxes
      ensures id in s.boxes[k] <==> k == s.cards[i].box
    {
      assert id in s.boxes[k] <==> multiset(s.boxes[k])[id] > 0;
    }
  }

  function Empty(): (s: StoreState)
    ensures Consistent(s)
  {
    StoreState([], map[1 := [], 2 := [], 3 := [], 4 := [], 5 := []])
  }

  // ---------------------------------------------------------------------------
  // The handlers' effects on the store

  /** The card dict the create handler builds. */
  function NewRecord(id: int, front: Side, back: Side, now: string): (c: CardFields)
    ensures c.id == Some(id) && c.front == front && c.back == back
    ensures c.box == MinBox && c.reviewCount == 0 && c.lastReviewed == None && c.createdAt == now
  {
    CardFields(Some(id), front, back, MinBox, now, None, 0)
  }

  /** The create handler writes the same defaults as `Card(front, back)`. */
  lemma NewRecordMatchesCard(id: int, front: Side, back: Side, now: string)
    requires now != ""
    ensures NewRecord(id, front, back, now) == NewCard(front, back, now).(id := Some(id))
  {
  }

  /** Appends a new card with the given id and files the id at the end of bucket 1. */
  function AddCard(s: StoreState, id: int, front: Side, back: Side, now: string): StoreState
    requires MinBox in s.boxes
  {
    StoreState(s.cards + [NewRecord(id, front, back, now)], s.boxes[MinBox := s.boxes[MinBox] + [id]])
  }

  /** The create handler: the id is `len(cards) + 1`. */
  function CreateStep(s: StoreState, front: Side, back: Side, now: string): (r: StoreState)
    requires MinBox in s.boxes
    ensures |r.cards| == |s.cards| + 1 && r.cards[..|s.cards|] == s.cards
    ensures r.cards[|s.cards|] == NewRecord(|s.cards| + 1, front, back, now)
    ensures r.boxes.Keys == s.boxes.Keys
    ensures r.boxes[MinBox] == s.boxes[MinBox] + [|s.cards| + 1]
    ensures forall k | k in s.boxes && k != MinBox :: r.boxes[k] == s.boxes[k]
  {
    AddCard(s, |s.cards| + 1, front, back, now)
  }

  /** The update handler on the card at index i. */
  function EditStep(s: StoreState, i: nat, front: Option<Side>, back: Option<Side>): (r: StoreState)
    requires i < |s.cards|
    ensures r.boxes == s.boxes && |r.cards| == |s.cards|
    ensures forall j | 0 <= j < |s.cards| && j != i :: r.cards[j] == s.cards[j]
    ensures r.cards[i].id == s.cards[i].id && r.cards[i].box == s.cards[i].box
    ensures r.cards[i].reviewCount == s.cards[i].reviewCount && r.cards[i].lastReviewed == s.cards[i].lastReviewed
  {
    s.(cards := s.cards[i := Edited(s.cards[i], front, back)])
  }

  /** The delete handler on the card at index i. */
  function DeleteStep(s: StoreState, i: nat): (r: StoreState)
    requires i < |s.cards| && s.cards[i].id.Some?
    ensures |r.cards| == |s.cards| - 1
    ensures forall j | 0 <= j < |r.cards| :: r.cards[j] == s.cards[if j < i then j else j + 1]
    ensures r.boxes.Keys == s.boxes.Keys
    ensures forall k | k in s.boxes && s.cards[i].id.value !in s.boxes[k] :: r.boxes[k] == s.boxes[k]
  {
    StoreState(Without(s.cards, i), Purge(s.boxes, s.cards[i].id.value))
  }

  /** The review handler on the card at index i. */
  function ReviewStep(s: StoreState, i: nat, correct: bool, now: string): (r: StoreState)
    requires WellFormed(s) && i < |s.cards|
    ensures |r.cards| == |s.cards| && r.cards[i] == Reviewed(s.cards[i], correct, now)
    ensures forall j | 0 <= j < |s.cards| && j != i :: r.cards[j] == s.cards[j]
    ensures r.boxes.Keys == s.boxes.Keys
    ensures var to := NextBox(s.cards[i].box, correct);
            |r.boxes[to]| > 0 && r.boxes[to][|r.boxes[to]| - 1] == s.cards[i].id.value
    ensures forall k | k in s.boxes && k != s.cards[i].box && k != NextBox(s.cards[i].box, correct) ::
              r.boxes[k] == s.boxes[k]
  {
    var c := s.cards[i];
    var id := c.id.value;
    var newBox := NextBox(c.box, correct);
    var taken := s.boxes[c.box := Discard(s.boxes[c.box], id)];
    StoreState(s.cards[i := Reviewed(c, correct, now)], taken[newBox := taken[newBox] + [id]])
  }

  // ---------------------------------------------------------------------------
  // Each handler keeps the invariant

  lemma AddCardPreserves(s: StoreState, id: int, front: Side, back: Side, now: string)
    requires WellFormed(s)
    ensures WellFormed(AddCard(s, id, front, back, now))
    ensures Consistent(s) && id !in Ids(s.cards) ==> Consistent(AddCard(s, id, front, back, now))
  {
    var t := AddCard(s, id, front, back, now);
    var n := |s.cards|;
    assert forall j | 0 <= j < n :: t.cards[j] == s.cards[j];
    assert t.cards[n] == NewRecord(id, front, back, now);
    if Consistent(s) && id !in Ids(s.cards) {
      forall j | 0 <= j < n
        ensures s.cards[j].id != Some(id)
      {
        assert s.cards[j].id.value in Ids(s.cards);
      }
      forall k | k in s.boxes
        ensures multiset(s.boxes[k])[id] == 0
      {
        assert id !in s.boxes[k];
      }
      assert multiset(t.boxes[MinBox]) == multiset(s.boxes[MinBox]) + multiset{id};
      AddCardLeavesNoStrays(s, id, front, back, now);
    }
  }

  lemma AddCardLeavesNoStrays(s: StoreState, id: int, front: Side, back: Side, now: string)
    requires MinBox in s.boxes && NoStrays(s)
    ensures NoStrays(AddCard(s, id, front, back, now))
  {
    var t := AddCard(s, id, front, back, now);
    var n := |s.cards|;
    forall k, x | k in t.boxes && x in t.boxes[k]
      ensures x in Ids(t.cards)
    {
      if x == id {
        assert t.cards[n].id.value == id;
      } else {
        assert x in s.boxes[k];
        assert x in Ids(s.cards);
        var j :| 0 <= j < n && s.cards[j].id.Some? && s.cards[j].id.value == x;
        assert t.cards[j].id.value == x;
      }
    }
  }

  /** Create keeps the invariant whenever `len(cards) + 1` is not already a live id. */
  lemma CreatePreserves(s: StoreState, front: Side, back: Side, now: string)
    requires WellFormed(s)
    ensures WellFormed(CreateStep(s, front, back, now))
    ensures Consistent(s) && |s.cards| + 1 !in Ids(s.cards) ==> Consistent(CreateStep(s, front, back, now))
  {
    AddCardPreserves(s, |s.cards| + 1, front, back, now);
  }

  /** Update touches neither ids, boxes nor buckets. */
  lemma EditPreserves(s: StoreState, i: nat, front: Option<Side>, back: Option<Side>)
    requires WellFormed(s) && i < |s.cards|
    ensures WellFormed(EditStep(s, i, front, back))
    ensures Consistent(s) ==> Consistent(EditStep(s, i, front, back))
  {
    var t := EditStep(s, i, front, back);
    assert forall j | 0 <= j < |s.cards| :: t.cards[j].id == s.cards[j].id && t.cards[j].box == s.cards[j].box;
    assert Ids(t.cards) == Ids(s.cards) by {
      forall x | x in Ids(s.cards) ensures x in Ids(t.cards) {
        var j :| 0 <= j < |s.cards| && s.cards[j].id.Some? && s.cards[j].id.value == x;
        assert t.cards[j].id.value == x;
      }
    }
  }

  lemma DeletePreserves(s: StoreState, i: nat)
    requires WellFormed(s) && i < |s.cards|
    ensures WellFormed(DeleteStep(s, i))
    ensures Consistent(s) ==> Consistent(DeleteStep(s, i))
  {
    DeleteKeepsWellFormed(s, i);
    if Consistent(s) {
      DeleteKeepsUniqueIds(s.cards, i);
      DeleteKeepsPlaced(s, i);
      assert forall k | k in s.boxes :: multiset(s.boxes[k])[s.cards[i].id.value] <= 1;
      DeleteLeavesNoStrays(s, i);
    }
  }

  /** An id no card has is in no bucket of a consistent store. */
  lemma UnknownIdIsFiledNowhere(s: StoreState, id: int)
    requires NoStrays(s) && IndexOf(s.cards, id).None?
    ensures forall k | k in s.boxes :: id !in s.boxes[k]
  {
    assert id !in Ids(s.cards);
  }

  /** After a delete in a consistent store, looking the id up fails and no bucket holds it. */
  lemma DeletedCardIsGone(s: StoreState, i: nat)
    requires Consistent(s) && i < |s.cards|
    ensures IndexOf(DeleteStep(s, i).cards, s.cards[i].id.value).None?
    ensures forall k | k in DeleteStep(s, i).boxes :: s.cards[i].id.value !in DeleteStep(s, i).boxes[k]
  {
    var t := DeleteStep(s, i);
    var id := s.cards[i].id.value;
    forall j | 0 <= j < |t.cards|
      ensures t.cards[j].id != Some(id)
    {
      var j' := if j < i then j else j + 1;
      assert t.cards[j] == s.cards[j'];
    }
    forall k | k in t.boxes
      ensures id !in t.boxes[k]
    {
      assert multiset(s.boxes[k])[id] <= 1;
    }
  }

  lemma DeleteKeepsWellFormed(s: StoreState, i: nat)
    requires WellFormed(s) && i < |s.cards|
    ensures WellFormed(DeleteStep(s, i))
  {
  }

  lemma DeleteKeepsUniqueIds(cards: seq<CardFields>, i: nat)
    requires UniqueIds(cards) && i < |cards|
    ensures UniqueIds(Without(cards, i))
  {
    var r := Without(cards, i);
    forall a, b | 0 <= a < b < |r|
      ensures r[a].id != r[b].id
    {
      var a' := if a < i then a else a + 1;
      var b' := if b < i then b else b + 1;
      assert r[a] == cards[a'] && r[b] == cards[b'];
    }
  }

  lemma DeleteKeepsPlaced(s: StoreState, i: nat)
    requires WellFormed(s) && UniqueIds(s.cards) && Placed(s) && i < |s.cards|
    ensures WellFormed(DeleteStep(s, i)) && Placed(DeleteStep(s, i))
  {
    DeleteKeepsWellFormed(s, i);
    var t := DeleteStep(s, i);
    forall j, k | 0 <= j < |t.cards| && k in t.boxes
      ensures multiset(t.boxes[k])[t.cards[j].id.value] == if k == t.cards[j].box then 1 else 0
    {
      var j' := if j < i then j else j + 1;
      assert t.cards[j] == s.cards[j'];
      assert s.cards[j'].id != s.cards[i].id;
    }
  }

  lemma DeleteLeavesNoStrays(s: StoreState, i: nat)
    requires WellFormed(s) && NoStrays(s) && i < |s.cards|
    requires forall k | k in s.boxes :: multiset(s.boxes[k])[s.cards[i].id.value] <= 1
    ensures NoStrays(DeleteStep(s, i))
  {
    var t := DeleteStep(s, i);
    var id := s.cards[i].id.value;
    forall k, x | k in t.boxes && x in t.boxes[k]
      ensures x in Ids(t.cards)
    {
      assert multiset(t.boxes[k])[x] > 0;
      assert x != id && x in s.boxes[k];
      IdsWithout(s.cards, i, x);
    }
  }

  lemma IdsWithout(cards: seq<CardFields>, i: nat, x: int)
    requires i < |cards| && x in Ids(cards) && cards[i].id != Some(x)
    ensures x in Ids(Without(cards, i))
  {
    var j :| 0 <= j < |cards| && cards[j].id.Some? && cards[j].id.value == x;
    var j' := if j < i then j else j - 1;
    assert Without(cards, i)[j'] == cards[j];
  }

  lemma ReviewPreserves(s: StoreState, i: nat, correct: bool, now: string)
    requires WellFormed(s) && i < |s.cards|
    ensures WellFormed(ReviewStep(s, i, correct, now))
    ensures Consistent(s) ==> Consistent(ReviewStep(s, i, correct, now))
  {
    ReviewKeepsWellFormed(s, i, correct, now);
    if Consistent(s) {
      ReviewKeepsIds(s, i, correct, now);
      ReviewKeepsPlaced(s, i, correct, now);
      ReviewLeavesNoStrays(s, i, correct, now);
    }
  }

  lemma ReviewKeepsWellFormed(s: StoreState, i: nat, correct: bool, now: string)
    requires WellFormed(s) && i < |s.cards|
    ensures WellFormed(ReviewStep(s, i, correct, now))
  {
  }

  lemma ReviewKeepsIds(s: StoreState, i: nat, correct: bool, now: string)
    requires WellFormed(s) && i < |s.cards|
    ensures Ids(ReviewStep(s, i, correct, now).cards) == Ids(s.cards)
    ensures UniqueIds(s.cards) ==> UniqueIds(ReviewStep(s, i, correct, now).cards)
  {
    var t := ReviewStep(s, i, correct, now);
    assert forall j | 0 <= j < |s.cards| :: t.cards[j].id == s.cards[j].id;
    forall x | x in Ids(s.cards) ensures x in Ids(t.cards) {
      var j :| 0 <= j < |s.cards| && s.cards[j].id.Some? && s.cards[j].id.value == x;
      assert t.cards[j].id.value == x;
    }
  }

  /** After a review the card's id is once in the bucket of its new box and nowhere else; other ids stay put. */
  lemma ReviewBuckets(s: StoreState, i: nat, correct: bool, now: string, k: int, x: int)
    requires WellFormed(s) && Placed(s) && i < |s.cards| && k in s.boxes
    ensures multiset(ReviewStep(s, i, correct, now).boxes[k])[x]
         == if x == s.cards[i].id.value then (if k == NextBox(s.cards[i].box, correct) then 1 else 0)
            else multiset(s.boxes[k])[x]
  {
    var id := s.cards[i].id.value;
    var box := s.cards[i].box;
    var taken := s.boxes[box := Discard(s.boxes[box], id)];
    assert multiset(s.boxes[k])[id] == if k == box then 1 else 0;
    assert multiset(taken[k])[x] == if x == id then 0 else multiset(s.boxes[k])[x];
  }

  lemma ReviewKeepsPlaced(s: StoreState, i: nat, correct: bool, now: string)
    requires WellFormed(s) && UniqueIds(s.cards) && Placed(s) && i < |s.cards|
    ensures WellFormed(ReviewStep(s, i, correct, now)) && Placed(ReviewStep(s, i, correct, now))
  {
    ReviewKeepsWellFormed(s, i, correct, now);
    var t := ReviewStep(s, i, correct, now);
    var id := s.cards[i].id.value;
    forall j, k | 0 <= j < |t.cards| && k in t.boxes
      ensures multiset(t.boxes[k])[t.cards[j].id.value] == if k == t.cards[j].box then 1 else 0
    {
      ReviewBuckets(s, i, correct, now, k, t.cards[j].id.value);
      if j != i {
        assert t.cards[j] == s.cards[j];
        assert s.cards[j].id.value != id;
      }
    }
  }

  lemma ReviewLeavesNoStrays(s: StoreState, i: nat, correct: bool, now: string)
    requires WellFormed(s) && Placed(s) && NoStrays(s) && i < |s.cards|
    ensures NoStrays(ReviewStep(s, i, correct, now))
  {
    var t := ReviewStep(s, i, correct, now);
    var id := s.cards[i].id.value;
    ReviewKeepsIds(s, i, correct, now);
    forall k, x | k in t.boxes && x in t.boxes[k]
      ensures x in Ids(s.cards)
    {
      ReviewBuckets(s, i, correct, now, k, x);
      assert multiset(t.boxes[k])[x] > 0;
      if x != id {
        assert x in s.boxes[k];
      } else {
        assert s.cards[i].id.value in Ids(s.cards);
      }
    }
  }

  // ---------------------------------------------------------------------------
  // Ids are not fresh

  /**
   * `len(cards) + 1` is not a fresh id once a card has been deleted: create two
   * cards, delete the first, create another, and two live cards share id 2.
   */
  lemma IdReuseAfterDelete(front: Side, back: Side, now: string)
    ensures var s1 := CreateStep(CreateStep(Empty(), front, back, now), front, back, now);
            var s2 := DeleteStep(s1, 0);
            var s3 := CreateStep(s2, front, back, now);
            && Consistent(s2)
            && |s3.cards| == 2 && s3.cards[0].id == s3.cards[1].id == Some(2)
            && !Consistent(s3)
  {
    TwoCreates(front, back, now);
    var s1 := CreateStep(CreateStep(Empty(), front, back, now), front, back, now);
    DeletePreserves(s1, 0);
    var s2 := DeleteStep(s1, 0);
    assert s2.cards == [NewRecord(2, front, back, now)];
    var s3 := CreateStep(s2, front, back, now);
    assert s3.cards[0] == s2.cards[0];
    SharedIdIsInconsistent(s3);
  }

  lemma SharedIdIsInconsistent(s: StoreState)
    requires |s.cards| == 2 && s.cards[0].id == s.cards[1].id
    ensures !Consistent(s)
  {
  }

  /** Two creates on the empty store give a consistent store holding cards 1 and 2. */
  lemma TwoCreates(front: Side, back: Side, now: string)
    ensures var s1 := CreateStep(CreateStep(Empty(), front, back, now), front, back, now);
            && Consistent(s1)
            && s1.cards == [NewRecord(1, front, back, now), NewRecord(2, front, back, now)]
  {
    var s0 := Empty();
    CreatePreserves(s0, front, back, now);
    var s1a := CreateStep(s0, front, back, now);
    assert s1a.cards == [NewRecord(1, front, back, now)];
    assert 2 !in Ids(s1a.cards);
    CreatePreserves(s1a, front, back, now);
  }


  // ---------------------------------------------------------------------------
  // The box summary

  /** `c['id'] in card_ids`. */
  predicate Filed(c: CardFields, bucket: seq<int>)
  {
    c.id.Some? && c.id.value in bucket
  }

  /** `[c for c in cards if c['id'] in card_ids]`, in the order of `cards`. */
  function CardsIn(cards: seq<CardFields>, bucket: seq<int>): (r: seq<CardFields>)
    ensures |r| <= |cards|
    ensures forall j | 0 <= j < |r| :: r[j] in cards && Filed(r[j], bucket)
    ensures forall j | 0 <= j < |cards| && Filed(cards[j], bucket) :: cards[j] in r
  {
    if cards == [] then []
    else
      var last := cards[|cards| - 1];
      CardsIn(cards[..|cards| - 1], bucket) + (if Filed(last, bucket) then [last] else [])
  }

  /** The cards whose `box` field is k, in the order of `cards`. */
  function CardsInBox(cards: seq<CardFields>, k: int): (r: seq<CardFields>)
    ensures |r| <= |cards|
  {
    if cards == [] then []
    else
      var last := cards[|cards| - 1];
      CardsInBox(cards[..|cards| - 1], k) + (if last.box == k then [last] else [])
  }

  lemma {:induction false} SameSelection(cards: seq<CardFields>, bucket: seq<int>, k: int)
    requires forall j | 0 <= j < |cards| :: Filed(cards[j], bucket) <==> cards[j].box == k
    ensures CardsIn(cards, bucket) == CardsInBox(cards, k)
  {
    if cards != [] {
      SameSelection(cards[..|cards| - 1], bucket, k);
    }
  }

  /** In a consistent store, bucket k lists exactly the cards whose box is k. */
  lemma BucketListsItsCards(s: StoreState, k: int)
    requires Consistent(s) && MinBox <= k <= MaxBox
    ensures CardsIn(s.cards, s.boxes[k]) == CardsInBox(s.cards, k)
  {
    forall j | 0 <= j < |s.cards|
      ensures Filed(s.cards[j], s.boxes[k]) <==> s.cards[j].box == k
    {
      var id := s.cards[j].id.value;
      assert id in s.boxes[k] <==> multiset(s.boxes[k])[id] > 0;
    }
    SameSelection(s.cards, s.boxes[k], k);
  }

  /** Cards whose boxes are all in 1..5 are split among the five boxes. */
  lemma {:induction false} BoxesPartitionCards(cards: seq<CardFields>)
    requires forall j | 0 <= j < |cards| :: MinBox <= cards[j].box <= MaxBox
    ensures |CardsInBox(cards, 1)| + |CardsInBox(cards, 2)| + |CardsInBox(cards, 3)|
          + |CardsInBox(cards, 4)| + |CardsInBox(cards, 5)| == |cards|
  {
    if cards != [] {
      BoxesPartitionCards(cards[..|cards| - 1]);
    }
  }

  /** The summary of a consistent store counts every card once. */
  lemma SummaryCountsEveryCard(s: StoreState)
    requires Consistent(s)
    ensures |CardsIn(s.cards, s.boxes[1])| + |CardsIn(s.cards, s.boxes[2])| + |CardsIn(s.cards, s.boxes[3])|
          + |CardsIn(s.cards, s.boxes[4])| + |CardsIn(s.cards, s.boxes[5])| == |s.cards|
  {
    BucketListsItsCards(s, 1);
    BucketListsItsCards(s, 2);
    BucketListsItsCards(s, 3);
    BucketListsItsCards(s, 4);
    BucketListsItsCards(s, 5);
    BoxesPartitionCards(s.cards);
  }

  // ---------------------------------------------------------------------------
  // Request bodies

  /** A create body names both sides (`not data` is covered: an empty body names neither). */
  predicate HasSides(data: Option<map<string, Side>>)
    ensures HasSides(data) ==> data.Some? && data.value != map[]
  {
    data.Some? && "front" in data.value && "back" in data.value
  }

  /** `'key' in data` and `data['key']` of an update body. */
  function Given(data: map<string, Side>, key: string): (r: Option<Side>)
    ensures r.Some? <==> key in data
  {
    if key in data then Some(data[key]) else None
  }

  predicate IsReviewRequest(data: Option<map<string, Value>>)
    ensures IsReviewRequest(data) ==> data.Some? && data.value != map[]
  {
    data.Some? && "card_id" in data.value && "correct" in data.value
  }

  /**
   * The card id a JSON value compares equal to: Python's `True == 1` and
   * `False == 0` make a boolean count as an id; strings, null and objects never do.
   */
  function AsId(v: Value): (r: Option<int>)
    ensures v.Int? ==> r == Some(v.i)
    ensures v.Null? || v.Str? || v.Object? ==> r == None
  {
    match v
    case Int(i) => Some(i)
    case Bool(b) => Some(if b then 1 else 0)
    case _ => None
  }

  /** The index of the card a review request names, if it exists. */
  function ReviewTarget(cards: seq<CardFields>, data: Option<map<string, Value>>): (r: Option<nat>)
    ensures !IsReviewRequest(data) ==> r.None?
    ensures r.Some? ==> r.value < |cards| && AsId(data.value["card_id"]) == cards[r.value].id
    ensures IsReviewRequest(data) && AsId(data.value["card_id"]).Some? ==>
              (r.None? <==> forall j | 0 <= j < |cards| :: cards[j].id != AsId(data.value["card_id"]))
  {
    if !IsReviewRequest(data) then None
    else match AsId(data.value["card_id"])
      case None => None
      case Some(id) => IndexOf(cards, id)
  }

  // ---------------------------------------------------------------------------
  // The store

  class Store {
    var cards: seq<CardFields>
    var boxes: map<int, seq<int>>

    function State(): StoreState
      reads this
    {
      StoreState(cards, boxes)
    }

    predicate Valid()
      reads this
    {
      WellFormed(State())
    }

    /** `cards = []` and `boxes = {i: [] for i in range(1, 6)}`. */
    constructor()
      ensures Valid() && Consistent(State())
      ensures cards == [] && forall k | k in boxes :: boxes[k] == []
    {
      cards := [];
      boxes := map[1 := [], 2 := [], 3 := [], 4 := [], 5 := []];
    }

    /** The generator search shared by the detail and review handlers. */
    method Find(id: int) returns (r: Option<nat>)
      ensures r == IndexOf(cards, id)
    {
      var i := 0;
      while i < |cards|
        invariant 0 <= i <= |cards|
        invariant forall j | 0 <= j < i :: cards[j].id != Some(id)
      {
        if cards[i].id == Some(id) {
          return Some(i);
        }
        i := i + 1;
      }
      return None;
    }

    /** POST /api/cards. */
    method Create(data: Option<map<string, Side>>, now: string) returns (r: Outcome)
      requires Valid()
      modifies this
      ensures Valid()
      ensures !HasSides(data) ==> r == BadRequest && State() == old(State())
      ensures HasSides(data) ==>
                && State() == CreateStep(old(State()), data.value["front"], data.value["back"], now)
                && r == Created(cards[|cards| - 1])
                && r.card.id == Some(|old(cards)| + 1) && r.card.box == MinBox
      ensures old(Consistent(State())) && |old(cards)| + 1 !in Ids(old(cards)) ==> Consistent(State())
    {
      if data.None? || data.value == map[] || "front" !in data.value || "back" !in data.value {
        return BadRequest;
      }
      CreatePreserves(State(), data.value["front"], data.value["back"], now);
      var card := CardFields(Some(|cards| + 1), data.value["front"], data.value["back"], MinBox, now, None, 0);
      cards := cards + [card];
      boxes := boxes[MinBox := boxes[MinBox] + [card.id.value]];
      r := Created(card);
    }

    /** GET /api/cards/<id>. */
    method Detail(id: int) returns (r: Outcome)
      ensures IndexOf(cards, id).None? ==> r == NotFound
      ensures IndexOf(cards, id).Some? ==> r == Found(cards[IndexOf(cards, id).value])
      ensures r.Found? ==> r.card in cards && r.card.id == Some(id)
    {
      var found := Find(id);
      if found.None? {
        return NotFound;
      }
      r := Found(cards[found.value]);
    }

    /** PUT /api/cards/<id>: replaces the sides the body names, and nothing else. */
    method Update(id: int, data: map<string, Side>) returns (r: Outcome)
      requires Valid()
      modifies this
      ensures Valid()
      ensures old(IndexOf(cards, id)).None? ==> r == NotFound && State() == old(State())
      ensures old(IndexOf(cards, id)).Some? ==>
                var i := old(IndexOf(cards, id)).value;
                && State() == EditStep(old(State()), i, Given(data, "front"), Given(data, "back"))
                && r == Updated(cards[i])
      ensures boxes == old(boxes)
      ensures old(Consistent(State())) ==> Consistent(State())
    {
      var found := Find(id);
      if found.None? {
        return NotFound;
      }
      var i := found.value;
      EditPreserves(State(), i, Given(data, "front"), Given(data, "back"));
      var card := cards[i];
      if "front" in data {
        card := card.(front := data["front"]);
      }
      if "back" in data {
        card := card.(back := data["back"]);
      }
      cards := cards[i := card];
      r := Updated(card);
    }

    /** DELETE /api/cards/<id>: drops the card and purges its id from every bucket. */
    method Delete(id: int) returns (r: Outcome)
      requires Valid()
      modifies this
      ensures Valid()
      ensures old(IndexOf(cards, id)).None? ==> r == NotFound && State() == old(State())
      ensures old(IndexOf(cards, id)).Some? ==>
                r == Deleted && State() == DeleteStep(old(State()), old(IndexOf(cards, id)).value)
      ensures old(Consistent(State())) ==> Consistent(State())
      ensures old(Consistent(State())) ==> IndexOf(cards, id).None? && forall k | k in boxes :: id !in boxes[k]
    {
      var found := Find(id);
      if found.None? {
        if Consistent(State()) {
          UnknownIdIsFiledNowhere(State(), id);
        }
        return NotFound;
      }
      var i := found.value;
      ghost var before := State();
      cards := Without(cards, i);
      PurgeBuckets(id);
      assert State() == DeleteStep(before, i);
      DeletePreserves(before, i);
      if Consistent(before) {
        DeletedCardIsGone(before, i);
      }
      r := Deleted;
    }

    /** `for box_cards in boxes.values(): if card_id in box_cards: box_cards.remove(card_id)`. */
    method PurgeBuckets(id: int)
      requires forall k :: k in boxes <==> MinBox <= k <= MaxBox
      modifies this`boxes
      ensures boxes == Purge(old(boxes), id)
    {
      var k := MinBox;
      PurgedBelowNothing(boxes, id);
      while k <= MaxBox
        invariant MinBox <= k <= MaxBox + 1
        invariant boxes == PurgedBelow(old(boxes), id, k)
      {
        var bucket := boxes[k];
        if id in bucket {
          bucket := RemoveFirst(bucket, id);
        }
        PurgedBelowStep(old(boxes), id, k);
        boxes := boxes[k := bucket];
        k := k + 1;
      }
      PurgedBelowAll(old(boxes), id);
    }

    /** `if card_id in boxes[current_box]: boxes[current_box].remove(card_id)`, then `boxes[new_box].append(card_id)`. */
    method Relocate(id: int, from: int, to: int)
      requires forall k :: k in boxes <==> MinBox <= k <= MaxBox
      requires MinBox <= from <= MaxBox && MinBox <= to <= MaxBox
      modifies this`boxes
      ensures var taken := old(boxes)[from := Discard(old(boxes)[from], id)];
              boxes == taken[to := taken[to] + [id]]
    {
      if id in boxes[from] {
        boxes := boxes[from := RemoveFirst(boxes[from], id)];
      }
      boxes := boxes[to := boxes[to] + [id]];
    }

    /** `[c for c in cards if c['id'] in card_ids]`. */
    method CardsFiledIn(ids: seq<int>) returns (inBox: seq<CardFields>)
      ensures inBox == CardsIn(cards, ids)
    {
      inBox := [];
      var i := 0;
      while i < |cards|
        invariant 0 <= i <= |cards|
        invariant inBox == CardsIn(cards[..i], ids)
      {
        assert cards[..i + 1][..i] == cards[..i];
        if cards[i].id.Some? && cards[i].id.value in ids {
          inBox := inBox + [cards[i]];
        }
        i := i + 1;
      }
      assert cards[..|cards|] == cards;
    }

    /** GET /api/boxes: for each box, the cards its bucket lists and how many. */
    method Summary() returns (rows: seq<BoxRow>)
      requires Valid()
      ensures |rows| == MaxBox
      ensures forall j | 0 <= j < |rows| ::
                rows[j] == BoxRow(j + 1, |CardsIn(cards, boxes[j + 1])|, CardsIn(cards, boxes[j + 1]))
      ensures Consistent(State()) ==> forall j | 0 <= j < |rows| :: rows[j].cards == CardsInBox(cards, j + 1)
      ensures Consistent(State()) ==>
                rows[0].cardCount + rows[1].cardCount + rows[2].cardCount + rows[3].cardCount + rows[4].cardCount
                == |cards|
    {
      rows := [];
      var k := MinBox;
      while k <= MaxBox
        invariant MinBox <= k <= MaxBox + 1 && |rows| == k - 1
        invariant forall j | 0 <= j < |rows| ::
                    rows[j] == BoxRow(j + 1, |CardsIn(cards, boxes[j + 1])|, CardsIn(cards, boxes[j + 1]))
      {
        var inBox := CardsFiledIn(boxes[k]);
        rows := rows + [BoxRow(k, |inBox|, inBox)];
        k := k + 1;
      }
      if Consistent(State()) {
        forall j | 0 <= j < |rows|
          ensures rows[j].cards == CardsInBox(cards, j + 1)
        {
          BucketListsItsCards(State(), j + 1);
        }
        SummaryCountsEveryCard(State());
      }
    }

    /**
     * POST /api/review: takes the id out of its old bucket if it is there, moves
     * the card with the Leitner rule written out inline, and appends the id to the
     * bucket of the new box.
     */
    method Review(data: Option<map<string, Value>>, now: string) returns (r: Outcome)
      requires Valid()
      modifies this
      ensures Valid()
      ensures !IsReviewRequest(data) ==> r == BadRequest && State() == old(State())
      ensures IsReviewRequest(data) && ReviewTarget(old(cards), data).None? ==>
                r == NotFound && State() == old(State())
      ensures ReviewTarget(old(cards), data).Some? ==>
                var i := ReviewTarget(old(cards), data).value;
                && State() == ReviewStep(old(State()), i, Truthy(data.value["correct"]), now)
                && cards[i] == Reviewed(old(cards)[i], Truthy(data.value["correct"]), now)
                && r == Moved(cards[i], old(cards)[i].box, cards[i].box)
      ensures old(Consistent(State())) ==> Consistent(State())
    {
      if data.None? || data.value == map[] || "card_id" !in data.value || "correct" !in data.value {
        return BadRequest;
      }
      var cardId := AsId(data.value["card_id"]);
      var correct := Truthy(data.value["correct"]);
      if cardId.None? {
        return NotFound;
      }
      var found := Find(cardId.value);
      if found.None? {
        return NotFound;
      }
      var i, id := found.value, cardId.value;
      ghost var before := State();
      var card := cards[i];
      var currentBox := card.box;
      var newBox;
      if correct {
        newBox := Min(currentBox + 1, MaxBox);
      } else {
        newBox := MinBox;
      }
      assert newBox == NextBox(currentBox, correct);
      Relocate(id, currentBox, newBox);
      card := card.(box := newBox);
      card := card.(lastReviewed := Some(now));
      card := card.(reviewCount := card.reviewCount + 1);
      assert card == Reviewed(before.cards[i], correct, now);
      cards := cards[i := card];
      assert State() == ReviewStep(before, i, correct, now);
      ReviewPreserves(before, i, correct, now);
      r := Moved(card, currentBox, newBox);
    }
  }
}
