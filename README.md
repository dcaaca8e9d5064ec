# MemoryVault Leitner boxes in Dafny

MemoryVault is a flashcard service built on the Leitner box system. Each card sits in one of five boxes. A correct answer moves the card up one box, and it stays in box 5 once there. A wrong answer sends it back to box 1. This project models three parts of the repository:

- The `Card` class (`models/card.py`). It has its constructor defaults, `review`, `update`, `to_dict` and `from_dict`. In `card.dfy`, `Cards.Card` is a class whose methods update its fields in place. The field record `Cards.CardFields` and the dict functions are pure.
- The card side value (`models/content.py`). This is `ContentType`, plus `CardContent` with `text`, `image`, `is_text`, `is_image`, `to_dict` and `from_dict`. It lives in `content.dfy` as datatypes and functions.
- The in-memory store of `app.py`: the `cards` list and the `boxes` buckets 1..5 of card ids. The handlers for create, detail, update, delete, box summary and review are the methods of `App.Store` in `app.dfy`. Each one is proved against a step function on the value `App.StoreState`. The cross-structure invariant is `App.Consistent`: every card's id occurs once, in the bucket of its `box`, and in no other bucket. It is proved to survive each handler.

Supporting modules:

- `leitner.dfy` states the box transition once, as `Leitner.NextBox`. `Cards.Card.Review` and `App.Store.Review` are each proved to agree with it.
- `json.dfy` models decoded JSON values and Python truthiness.
- `wrappers.dfy` holds `Option` and `Result`.

The clock (`datetime.now().isoformat()`) is the parameter `now` wherever the source reads it.

Ids are allocated as `len(cards) + 1` (app.py:38). After a delete, that can hand out an id that is still live. The model keeps this behaviour. Create is proved to keep the invariant only when the new id is not already live. `App.IdReuseAfterDelete` exhibits the clash: create two cards, delete the first, then create another.

Other behaviour of the code that the model keeps as it is:

- `Card.from_dict` does not range-check `box` (models/card.py:45). `Cards.RoundTrip` holds for any box.
- A `front`/`back` that is a bare string is stored as that string, not wrapped into text content (app.py:39-40). So a side is `Raw(string)` or `Structured(CardContent)`.
- `boxes[...].append` does not check for a duplicate id (app.py:48, app.py:128).

## Model

| member | source | states |
|---|---|---|
| Leitner.NextBox | models/card.py:61-68 | A correct answer moves the box up by one, capped at 5. A wrong answer gives box 1. A box in 1..5 stays in 1..5. The box is unchanged exactly when a correct answer meets box 5 or a wrong answer meets box 1. |
| Leitner.BoxAfterStreak | models/card.py:61-68 | After any run of answers, the box is min(s + n, 5). n is the number of trailing correct answers. s is the starting box if every answer was correct, and 1 otherwise. |
| Leitner.AllCorrectReachesLastBox | models/card.py:63-65 | From a box in 1..5, k correct answers in a row reach box min(b + k, 5), so four are always enough to reach box 5. |
| Leitner.BoxAfterInRange | models/card.py:61-68 | Any number of reviews keeps a box that starts in 1..5 inside 1..5. |
| Json.Truthy | app.py:118 | `if correct:` is false exactly for null, false, 0, the empty string and the empty object. |
| Json.OptionalString | models/content.py:48 | `data.get(key)` for an optional string: absent or null reads as None, a string reads as itself, any other value is an error. |
| Json.OptionalInt | models/card.py:42 | `data.get('id')`: absent or null reads as None, an integer reads as itself, any other value is an error. |
| Json.IntOr | models/card.py:45-48 | `data.get(key, default)`: only an absent key takes the default. A present integer is kept as it is. |
| CardContents.TypeName | models/content.py:5-8 | A type is written as "text" or "image", and ParseType reads that name back to the same member. |
| CardContents.ParseType | models/content.py:46 | `ContentType(v)` succeeds exactly for "text" and "image", and "text" gives TEXT. |
| CardContents.TextContent | models/content.py:51-54 | `text(s)` is text content with value s and no alternative text. |
| CardContents.ImageContent | models/content.py:56-59 | `image(url, alt)` is image content with value url and the given alternative text. |
| CardContents.IsText | models/content.py:61-67 | Exactly one of `is_text` and `is_image` holds. |
| CardContents.ToDict | models/content.py:32-40 | The dict always has `type` and `value`. It has `alt_text` exactly when the alternative text is non-empty, and no other keys. FromDict reads it back to the content, with an empty alternative text turned into None. |
| CardContents.FromDict | models/content.py:42-49 | Fails when `type` is missing or not "text" or "image", and when `value` is missing. A result's type, value and alternative text are the ones the dict holds. A missing `alt_text` gives None. |
| CardContents.RoundTripExact | models/content.py:32-49 | `from_dict(to_dict(c)) == c` exactly when the alternative text is not the empty string. |
| CardContents.TextOmitsAltText | models/content.py:38-40 | Content built by `text()` has no `alt_text` key and round-trips exactly. |
| CardContents.ImageKeepsAltText | models/content.py:38-49 | An image with a non-empty alternative text writes it out and round-trips exactly. |
| Cards.Stamp | models/card.py:22 | `created_at or now` is never empty, and a non-empty given stamp is kept. |
| Cards.NewCard | models/card.py:8-24 | `Card(front, back)` has no id, the given sides, box 1, review count 0, no last-review stamp, and a non-empty creation stamp. |
| Cards.Card.constructor | models/card.py:8-24 | Each field is set from its argument, the creation stamp goes through `created_at or now`, and the stamp is non-empty. |
| Cards.Card.Review | models/card.py:51-73 | The box becomes NextBox of the old box. The count grows by one, the last-review stamp is set, and nothing else changes. It returns the new box, and a box in 1..5 stays in 1..5. |
| Cards.Card.Update | models/card.py:75-80 | Only the sides that are given are replaced. Id, box, stamps and count are unchanged. |
| Cards.ReplayFacts | models/card.py:51-73 | After k reviews the count has grown by k, and the box is the Leitner box the answers lead to. The stamp is that of the last review, and id, sides and creation stamp are unchanged. |
| Cards.ReviewHistory | models/card.py:8-73 | A new card reviewed k times has count k, a last-review stamp exactly when k > 0, and a box in 1..5. |
| Cards.ContentJson | models/card.py:30-31 | A structured side is written back as its own `type`/`value`/`alt_text` object. `alt_text` is present whenever the content has one, even an empty one, and CardContents.FromDict reads the object back to the same content. |
| Cards.SideToJson | models/card.py:30-31 | A side's JSON form reads back, under either key, to exactly the same side. |
| Cards.SideFromJson | models/card.py:43-44 | A string reads as a raw side. Only a string or an object can be a side. |
| Cards.ToDict | models/card.py:26-36 | The dict has exactly the seven card keys. Box and review count are written as they are, and `last_reviewed` is null exactly when the card was never reviewed. |
| Cards.FromDict | models/card.py:38-49 | Fails when `front` or `back` is missing. Box defaults to 1 and review count to 0, and box is taken as given with no range check. The creation stamp is non-empty. |
| Cards.RoundTrip | models/card.py:26-49 | Reading a card's dict back reproduces every field exactly, for any box. |
| Cards.Reviewed | models/card.py:61-71 | A correct answer gives box min(box + 1, 5), and a wrong one box 1. A box in 1..5 stays in 1..5. The count grows by one, and the last-review stamp is set. Id, sides and creation stamp are unchanged. |
| Cards.Edited | models/card.py:75-80 | A given side replaces the old one, and a missing one keeps it. Every other field is unchanged. |
| App.FirstIndex | app.py:114-115 | The position `list.remove` acts on holds the value, and nothing before it does. |
| App.RemoveFirst | app.py:114-115 | `list.remove(x)` takes one occurrence of x away and keeps every other value's count. |
| App.Discard | app.py:76-77 | `if x in s: s.remove(x)` leaves a bucket without x unchanged, and otherwise makes it one shorter. |
| App.DiscardCount | app.py:76-77 | `if x in s: s.remove(x)` lowers the count of x by one if it is there, and changes nothing else. |
| App.Purge | app.py:75-77 | The loop over the buckets keeps the same bucket numbers. |
| App.Without | app.py:73 | `cards.remove(card)` leaves one card fewer, with the others in their order. |
| App.IndexOf | app.py:56 | The lookup finds the first card with that id, and fails exactly when no card has it. |
| App.ExactlyOneBucket | app.py:7-8 | In a consistent store, the buckets holding a card's id are exactly the one of its box. |
| App.Empty | app.py:7-8 | No cards and five empty buckets is a consistent store. |
| App.NewRecord | app.py:37-45 | The new card dict has the given id and sides, box 1, review count 0, no last-review stamp, and the current time as its creation stamp. |
| App.CreateStep | app.py:37-48 | Create appends one card with id `len(cards) + 1` and keeps the earlier cards. It appends that id to the end of bucket 1, and every other bucket is unchanged. |
| App.EditStep | app.py:64-70 | Update changes only the target card, keeping its id, box, review count and last-review stamp. The buckets are unchanged. |
| App.DeleteStep | app.py:72-78 | Delete leaves the other cards in their order and keeps the bucket numbers. A bucket without the id is unchanged. |
| App.ReviewStep | app.py:111-128 | The target card becomes Reviewed, and the other cards are unchanged. The id is last in the bucket of the new box. Buckets other than the old and the new box are unchanged. |
| App.NewRecordMatchesCard | app.py:37-45 | The dict the create handler builds has the same defaults as `Card(front, back)`. |
| App.AddCardPreserves | app.py:47-48 | Appending a card and filing its id at the end of bucket 1 keeps the store well formed. It keeps it consistent when the id is new. |
| App.AddCardLeavesNoStrays | app.py:47-48 | Filing a new card's id adds no stray id to any bucket. |
| App.CreatePreserves | app.py:37-48 | Create keeps the invariant whenever `len(cards) + 1` is not a live id. |
| App.EditPreserves | app.py:64-70 | Update keeps the invariant. |
| App.DeletePreserves | app.py:72-78 | Delete keeps the invariant. |
| App.DeleteKeepsUniqueIds | app.py:73 | Removing a card keeps the ids distinct. |
| App.DeleteKeepsPlaced | app.py:72-78 | After a delete, every remaining card's id is still once in its box's bucket and nowhere else. |
| App.DeleteLeavesNoStrays | app.py:75-77 | After a delete, every id in a bucket belongs to a remaining card. |
| App.UnknownIdIsFiledNowhere | app.py:56-59 | In a store with no stray ids, an id that no card has is in no bucket. |
| App.DeletedCardIsGone | app.py:72-78 | After a delete, the id is found neither among the cards nor in any bucket. |
| App.ReviewPreserves | app.py:111-128 | Review keeps the invariant. |
| App.ReviewKeepsIds | app.py:125-127 | Review changes no card's id. |
| App.ReviewBuckets | app.py:111-128 | After a review, the card's id is once in the bucket of NextBox and in no other, and every other id's count is unchanged. |
| App.ReviewKeepsPlaced | app.py:111-128 | After a review, every card's id is once in its box's bucket and nowhere else. |
| App.ReviewLeavesNoStrays | app.py:111-128 | After a review, every id in a bucket still belongs to a card. |
| App.IdReuseAfterDelete | app.py:38 | Create, create, delete the first, create: the store before the last create is consistent. After it, two cards have id 2 and the store is no longer consistent. |
| App.SharedIdIsInconsistent | app.py:38 | Two cards with the same id can never form a consistent store. |
| App.TwoCreates | app.py:37-48 | Two creates on the empty store give a consistent store holding cards 1 and 2. |
| App.CardsIn | app.py:86 | The comprehension lists only cards from the list whose id is in the bucket, and every such card. It is never longer than the list. |
| App.BucketListsItsCards | app.py:85-86 | In a consistent store, the cards listed for bucket k are exactly the cards whose box is k, in list order. |
| App.BoxesPartitionCards | app.py:84-91 | Cards with boxes in 1..5 split among the five boxes with none lost. |
| App.SummaryCountsEveryCard | app.py:84-91 | In a consistent store, the five bucket counts add up to the number of cards. |
| App.HasSides | app.py:34 | A body with both `front` and `back` is non-empty, so the `not data` test is covered. |
| App.IsReviewRequest | app.py:100 | A body with both `card_id` and `correct` is non-empty, so the `not data` test is covered. |
| App.ReviewTarget | app.py:100-109 | Without a valid review body, there is no target. A target is a card whose id equals `card_id`. For an id-like `card_id`, there is no target exactly when no card has that id. |
| App.Given | app.py:66-69 | A side is replaced exactly when its key is in the body. |
| App.AsId | app.py:103-106 | An integer `card_id` is that id. A string, null or object never matches a card. |
| App.Store.constructor | app.py:7-8 | The store starts with no cards and five empty buckets, and it is consistent. |
| App.Store.Find | app.py:56 | The loop returns IndexOf: the first card with the id, or none. |
| App.Store.Create | app.py:31-50 | With no body, or without front or back: BadRequest, and nothing changes. Otherwise it appends a card with id `len(cards) + 1` in box 1 and files the id at the end of bucket 1, touching no other bucket. The invariant survives when that id was not live. |
| App.Store.Detail | app.py:53-62 | Returns the first card with the id, or NotFound when there is none. |
| App.Store.Update | app.py:53-70 | An unknown id gives NotFound and changes nothing. Otherwise only the given sides of that card change, the buckets are untouched, and the invariant survives. |
| App.Store.Delete | app.py:53-78 | An unknown id gives NotFound and changes nothing. Otherwise the card is removed and its id purged from every bucket. The invariant survives, and afterwards the id is nowhere. |
| App.Store.PurgeBuckets | app.py:75-77 | Each bucket loses its first occurrence of the id, if it has one. |
| App.Store.Relocate | app.py:113-128 | The id leaves its old bucket if it is there, and is appended to the end of the new box's bucket. No other bucket changes. |
| App.Store.CardsFiledIn | app.py:86 | The loop returns CardsIn: the cards whose id is in the bucket, in list order. |
| App.Store.Summary | app.py:81-92 | Row k lists the cards whose id is in bucket k, in list order, with their count. In a consistent store, those are the cards in box k, and the counts add up to the number of cards. |
| App.Store.Review | app.py:95-135 | A missing body, card_id or correct gives BadRequest. An unknown id gives NotFound. Both change nothing. Otherwise the card is moved per NextBox and its count and stamp are updated, the id goes from its old bucket to the end of the new one, and the answer reports the old and new box. The invariant survives. |

## Left out

- Flask plumbing is not modelled: routing, `request.get_json`, `jsonify`, status codes, response messages and `app.run`. Handlers answer with the `App.Outcome` value.
- The home endpoint (app.py:11-22) and the GET branch of `manage_cards` (app.py:28-29) are not modelled. They only return data.
- `datetime.now().isoformat()` is a foreign call. It is replaced by a `now` parameter, which must be a non-empty string where the constructor defaults the creation stamp.
- `__repr__` in both model files is not modelled. It is debug formatting only.
- Concurrency under the Flask server is not modelled. The store is single-threaded.
- `static/js/app.js` is user interface code and is not part of this model.
- JSON arrays and floating-point numbers are not modelled. So a float `card_id` such as `1.0`, which Python compares equal to 1, is not covered.
- Request bodies that are JSON arrays or strings are not modelled. A body is absent or an object.
- A `front`/`back` value that is neither a string nor a content object is not modelled. `app.py` would store it unchecked.
- A PUT with a null JSON body is not modelled. In Python it raises a TypeError at `'front' in data`. `App.Store.Update` takes an object body.
- Cards.FromDict: rejects a field whose value has the wrong JSON type, such as `box: null` or a numeric `created_at`. Python would store such a value unchecked.
- Cards.FromDict: decodes `front`/`back` as a string or a content dict. Python stores whatever value is there.
- Cards.SideToJson: writes a content object from its decoded form. Extra keys in the object the client sent are not kept, and neither is the difference between `alt_text: null` and no `alt_text`. Python writes the stored object back unchanged.
- CardContents.FromDict: rejects a `value` that is not a string and an `alt_text` that is neither a string nor null. Python's `from_dict` (models/content.py:45-49) stores such values unchecked.
- Json.OptionalString: a present value that is neither a string nor null is an error. Python's `data.get(key)` returns it as it is.
- Json.OptionalInt: a present value that is neither an integer nor null is an error. Python's `data.get('id')` returns it as it is.
- Json.IntOr: a present value that is not an integer, null included, is an error. Python's `data.get(key, default)` returns it as it is.
- App.Purge: its own contract states only that the bucket numbers are kept. The per-bucket effect is stated by App.DiscardCount.
- Card dicts are values here, not shared references. The card in a handler's answer is a copy of the stored one. Aliasing between the two is not modelled, and no code path depends on it.
