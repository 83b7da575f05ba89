/** The community board of src/App.jsx: posting a message
    (`handleSubmitMessage`) and loading the list (`loadMessages`). The
    key-value store is an oracle: its outcomes are parameters. */
module Community {
  import opened Wrappers
  import opened Text
  import Decimal

  /** A stored message; `id` is the decimal text of one reading of the
      clock and `timestamp` a second reading taken just after it. */
  datatype Message = Message(id: string, name: string, message: string, timestamp: int)

  /** The form's two fields. */
  datatype Draft = Draft(name: string, message: string)

  datatype Board = Board(messages: seq<Message>, draft: Draft, submitting: bool, loadingMessages: bool)

  /** A store write: key and value. */
  datatype StorageWrite = StorageWrite(key: string, entry: Message)

  /** A click on "Post": ignored, or a write attempted and the board after it. */
  datatype Submission = Ignored | Attempted(write: StorageWrite, board: Board)

  const KeyPrefix: string := "message:"

  /** The message posted from the draft, with the clock reading `idTime`
      for its id and the later reading `now` for its timestamp; name and
      text are kept untrimmed. The two readings are separate calls of the
      clock and may differ. */
  function NewMessage(d: Draft, idTime: nat, now: nat): Message {
    Message(Decimal.NatToDecimal(idTime), d.name, d.message, now)
  }

  function KeyOf(m: Message): string {
    KeyPrefix + m.id
  }

  /** Messages whose ids were read at different times are stored under
      different keys, whatever their timestamps. */
  lemma KeysDistinct(d1: Draft, d2: Draft, t1: nat, t2: nat, now1: nat, now2: nat)
    requires t1 != t2
    ensures KeyOf(NewMessage(d1, t1, now1)) != KeyOf(NewMessage(d2, t2, now2))
  {
    var k1 := KeyOf(NewMessage(d1, t1, now1));
    var k2 := KeyOf(NewMessage(d2, t2, now2));
    if k1 == k2 {
      assert k1[|KeyPrefix|..] == Decimal.NatToDecimal(t1);
      assert k2[|KeyPrefix|..] == Decimal.NatToDecimal(t2);
      Decimal.NatToDecimalInjective(t1, t2);
    }
  }

  /** `handleSubmitMessage` with the clock reading `idTime` for the id and
      `now` for the timestamp; `stored` is whether the store's `set`
      succeeded. */
  function SubmitMessage(b: Board, idTime: nat, now: nat, stored: bool): (r: Submission)
    ensures r.Ignored? <==> AllWhitespace(b.draft.name) || AllWhitespace(b.draft.message)
    ensures r.Attempted? ==> r.write.key == KeyOf(r.write.entry)
    ensures r.Attempted? ==> r.write.entry.name == b.draft.name && r.write.entry.message == b.draft.message
    ensures r.Attempted? ==> r.write.entry.id == Decimal.NatToDecimal(idTime)
    ensures r.Attempted? ==> r.write.entry.timestamp == now
    ensures r.Attempted? ==> !r.board.submitting && r.board.loadingMessages == b.loadingMessages
    ensures r.Attempted? && stored ==>
              |r.board.messages| == |b.messages| + 1 && r.board.messages[0] == r.write.entry
              && r.board.messages[1..] == b.messages && r.board.draft == Draft("", "")
    ensures r.Attempted? && !stored ==> r.board == b.(submitting := false)
  {
    TrimEmptyIffBlank(b.draft.name);
    TrimEmptyIffBlank(b.draft.message);
    if Trim(b.draft.name) == [] || Trim(b.draft.message) == [] then Ignored
    else
      var m := NewMessage(b.draft, idTime, now);
      var write := StorageWrite(KeyOf(m), m);
      if stored then
        Attempted(write, b.(messages := [m] + b.messages, draft := Draft("", ""), submitting := false))
      else
        Attempted(write, b.(submitting := false))
  }

  /** The entries that were read, in order, without the failed or missing
      ones. */
  function Present(entries: seq<Option<Message>>): (r: seq<Message>)
    ensures forall m :: m in r <==> Some(m) in entries
    ensures forall m {:trigger multiset(r)[m]} :: multiset(r)[m] == multiset(entries)[Some(m)]
  {
    if |entries| == 0 then []
    else
      var rest := Present(entries[1..]);
      assert entries == [entries[0]] + entries[1..];
      if entries[0].Some? then [entries[0].value] + rest else rest
  }

  /** Newest first: timestamps never increase along the list. */
  predicate NewestFirst(s: seq<Message>) {
    forall i, j :: 0 <= i < j < |s| ==> s[i].timestamp >= s[j].timestamp
  }

  /** Puts `m` before the first message that is not newer than it. */
  function Insert(m: Message, s: seq<Message>): (r: seq<Message>)
    ensures multiset(r) == multiset(s) + multiset{m}
    ensures NewestFirst(s) ==> NewestFirst(r)
  {
    if |s| == 0 || s[0].timestamp <= m.timestamp then [m] + s
    else
      var rest := Insert(m, s[1..]);
      assert s == [s[0]] + s[1..];
      InsertSortedStep(m, s, rest);
      [s[0]] + rest
  }

  /** Putting `s[0]` back in front of the insertion into `s[1..]` keeps the
      order, since `s[0]` is newer than `m` and than the rest of `s`. */
  lemma InsertSortedStep(m: Message, s: seq<Message>, rest: seq<Message>)
    requires |s| > 0 && s[0].timestamp > m.timestamp
    requires multiset(rest) == multiset(s[1..]) + multiset{m}
    requires NewestFirst(s[1..]) ==> NewestFirst(rest)
    ensures NewestFirst(s) ==> NewestFirst([s[0]] + rest)
  {
    if NewestFirst(s) {
      var r := [s[0]] + rest;
      forall i, j | 0 <= i < j < |r|
        ensures r[i].timestamp >= r[j].timestamp
      {
        if i == 0 {
          var x := r[j];
          assert x == rest[j - 1];
          assert x in multiset(rest);
          if x != m {
            assert x in multiset(s[1..]);
            var k :| 0 <= k < |s[1..]| && s[1..][k] == x;
            assert s[k + 1] == x;
          }
        } else {
          assert r[i] == rest[i - 1] && r[j] == rest[j - 1];
        }
      }
    }
  }

  /** `loadedMessages.sort((a, b) => b.timestamp - a.timestamp)`: a stable
      sort, newest first. */
  function SortNewestFirst(s: seq<Message>): (r: seq<Message>)
    ensures NewestFirst(r)
    ensures multiset(r) == multiset(s)
  {
    if |s| == 0 then []
    else
      assert s == [s[0]] + s[1..];
      Insert(s[0], SortNewestFirst(s[1..]))
  }

  /** Reading the entries in two parts gives the messages of the first part
      followed by those of the second: the read order is kept. */
  lemma {:induction false} PresentConcat(a: seq<Option<Message>>, b: seq<Option<Message>>)
    ensures Present(a + b) == Present(a) + Present(b)
  {
    if |a| == 0 {
      assert a + b == b;
    } else {
      var ab := a + b;
      assert ab[1..] == a[1..] + b;
      assert ab[0] == a[0];
      PresentConcat(a[1..], b);
      var pa, pb := Present(a[1..]), Present(b);
      if a[0].Some? {
        assert Present(ab) == [a[0].value] + (pa + pb);
        assert Present(a) == [a[0].value] + pa;
        assert [a[0].value] + (pa + pb) == ([a[0].value] + pa) + pb;
      } else {
        assert Present(ab) == pa + pb;
        assert Present(a) == pa;
      }
    }
  }

  /** A single entry gives its message, or nothing when it failed. */
  lemma PresentSingle(e: Option<Message>)
    ensures Present([e]) == if e.Some? then [e.value] else []
  {
    assert [e][1..] == [];
  }

  /** The messages that carry timestamp `t`, in order. */
  function WithStamp(s: seq<Message>, t: int): seq<Message> {
    if |s| == 0 then []
    else (if s[0].timestamp == t then [s[0]] else []) + WithStamp(s[1..], t)
  }

  lemma {:induction false} InsertStable(m: Message, s: seq<Message>, t: int)
    ensures WithStamp(Insert(m, s), t) == (if m.timestamp == t then [m] else []) + WithStamp(s, t)
  {
    if |s| == 0 || s[0].timestamp <= m.timestamp {
      assert ([m] + s)[1..] == s;
    } else {
      InsertStable(m, s[1..], t);
      var rest := Insert(m, s[1..]);
      assert ([s[0]] + rest)[1..] == rest;
      if s[0].timestamp == t {
        assert m.timestamp != t;
      }
    }
  }

  /** The sort is stable: among messages with equal timestamps the loaded
      order is kept. */
  lemma {:induction false} SortStable(s: seq<Message>, t: int)
    ensures WithStamp(SortNewestFirst(s), t) == WithStamp(s, t)
  {
    if |s| > 0 {
      SortStable(s[1..], t);
      InsertStable(s[0], SortNewestFirst(s[1..]), t);
    }
  }

  lemma SortStableEverywhere(s: seq<Message>)
    ensures forall t :: WithStamp(SortNewestFirst(s), t) == WithStamp(s, t)
  {
    forall t
      ensures WithStamp(SortNewestFirst(s), t) == WithStamp(s, t)
    {
      SortStable(s, t);
    }
  }

  /** The store's listing: `list` throws, yields no `keys`, or yields keys
      whose `get` results are read (None for a failed, missing or
      unparsable entry). */
  datatype Listing = ListFailed | NoKeys | Listed(entries: seq<Option<Message>>)

  function LoadMessages(b: Board, listing: Listing): (r: Board)
    ensures !r.loadingMessages && r.draft == b.draft && r.submitting == b.submitting
    ensures listing.ListFailed? ==> r.messages == []
    ensures listing.NoKeys? ==> r.messages == b.messages
    ensures listing.Listed? ==> NewestFirst(r.messages)
    ensures listing.Listed? ==> forall m :: multiset(r.messages)[m] == multiset(listing.entries)[Some(m)]
    ensures listing.Listed? ==>
              forall t :: WithStamp(r.messages, t) == WithStamp(Present(listing.entries), t)
  {
    match listing
    case ListFailed => b.(messages := [], loadingMessages := false)
    case NoKeys => b.(loadingMessages := false)
    case Listed(entries) =>
      SortStableEverywhere(Present(entries));
      b.(messages := SortNewestFirst(Present(entries)), loadingMessages := false)
  }
}
