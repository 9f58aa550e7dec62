/** The conversation store: conversations, their messages numbered by a
    per-conversation sequence number, and the active conversation.  The
    SQLite tables are held in memory; a conversation id is a number drawn
    from a counter (the fresh random id) and time is a counter that ticks
    at every timestamp. */
module ChatStore {
  import opened Wrappers
  import opened Strings
  import opened Messages

  type ConvId = nat

  const DEFAULT_TITLE: string := "New Chat"
  const PAGE_SIZE: int := 100
  const TITLE_LENGTH: nat := 40

  datatype Conversation = Conversation(title: string, createdAt: nat, updatedAt: nat)

  /** A row of the messages table (its content already decoded). */
  datatype StoredMessage = StoredMessage(seqNo: int, role: string, content: Content)

  /** Why a write was refused: the conversation does not exist, which the
      foreign key from messages to conversations rejects. */
  datatype StoreError = UnknownConversation(convId: ConvId)

  /** Rows in strictly ascending, non-negative sequence order, stated
      pairwise. */
  predicate Ordered(rows: seq<StoredMessage>) {
    && (forall i :: 0 <= i < |rows| ==> rows[i].seqNo >= 0)
    && (forall i, j :: 0 <= i < j < |rows| ==> rows[i].seqNo < rows[j].seqNo)
  }

  /** The same, stated on neighbours. */
  predicate SortedRows(rows: seq<StoredMessage>)
    decreases |rows|
  {
    |rows| == 0 ||
    (rows[0].seqNo >= 0 && (|rows| == 1 || rows[0].seqNo < rows[1].seqNo) && SortedRows(rows[1..]))
  }

  lemma {:induction false} SortedIsOrdered(rows: seq<StoredMessage>)
    ensures SortedRows(rows) <==> Ordered(rows)
    decreases |rows|
  {
    if |rows| > 0 {
      SortedIsOrdered(rows[1..]);
      if SortedRows(rows) {
        forall i, j | 0 <= i < j < |rows| ensures rows[i].seqNo < rows[j].seqNo {
          if i > 0 {
            assert rows[1..][i - 1] == rows[i] && rows[1..][j - 1] == rows[j];
          } else if j > 1 {
            assert rows[1..][0] == rows[1] && rows[1..][j - 1] == rows[j];
          }
        }
      }
      if Ordered(rows) {
        assert Ordered(rows[1..]) by {
          forall i, j | 0 <= i < j < |rows[1..]| ensures rows[1..][i].seqNo < rows[1..][j].seqNo {
            assert rows[1..][i] == rows[i + 1] && rows[1..][j] == rows[j + 1];
          }
        }
      }
    }
  }

  /** `SELECT COALESCE(MAX(seq), -1)` */
  function MaxSeq(rows: seq<StoredMessage>): (m: int)
    ensures forall i :: 0 <= i < |rows| ==> rows[i].seqNo <= m
    ensures |rows| == 0 ==> m == -1
  {
    if |rows| == 0 then -1
    else if |rows| == 1 then rows[0].seqNo
    else
      var m := MaxSeq(rows[..|rows| - 1]);
      var last := rows[|rows| - 1].seqNo;
      if last > m then last else m
  }

  /** The number the next message of a conversation gets. */
  function NextSeq(rows: seq<StoredMessage>): int {
    MaxSeq(rows) + 1
  }

  /** The maximum of non-empty rows is some row's number. */
  lemma {:induction false} MaxSeqAttained(rows: seq<StoredMessage>)
    requires |rows| > 0
    ensures exists i :: 0 <= i < |rows| && rows[i].seqNo == MaxSeq(rows)
    decreases |rows|
  {
    if |rows| == 1 {
      assert rows[0].seqNo == MaxSeq(rows);
    } else {
      var init := rows[..|rows| - 1];
      if rows[|rows| - 1].seqNo > MaxSeq(init) {
        assert rows[|rows| - 1].seqNo == MaxSeq(rows);
      } else {
        MaxSeqAttained(init);
        var i :| 0 <= i < |init| && init[i].seqNo == MaxSeq(init);
        assert rows[i] == init[i] && MaxSeq(rows) == MaxSeq(init);
      }
    }
  }

  /** In sorted rows the maximum is the last row's number. */
  lemma {:induction false} SortedMaxIsLast(rows: seq<StoredMessage>)
    requires SortedRows(rows) && |rows| > 0
    ensures MaxSeq(rows) == rows[|rows| - 1].seqNo
  {
    SortedIsOrdered(rows);
    MaxSeqAttained(rows);
    var i :| 0 <= i < |rows| && rows[i].seqNo == MaxSeq(rows);
    if i < |rows| - 1 {
      assert rows[i].seqNo < rows[|rows| - 1].seqNo;
    }
  }

  /** Appending a message numbered `NextSeq` keeps the rows sorted. */
  lemma AppendKeepsSorted(rows: seq<StoredMessage>, role: string, content: Content)
    requires SortedRows(rows)
    ensures SortedRows(rows + [StoredMessage(NextSeq(rows), role, content)])
    ensures NextSeq(rows) >= 0
  {
    if |rows| > 0 {
      SortedMaxIsLast(rows);
    }
    SortedSnoc(rows, StoredMessage(NextSeq(rows), role, content));
  }

  /** A row numbered above the last one (and not negative) extends sorted rows. */
  lemma {:induction false} SortedSnoc(rows: seq<StoredMessage>, row: StoredMessage)
    requires SortedRows(rows) && row.seqNo >= 0
    requires |rows| > 0 ==> rows[|rows| - 1].seqNo < row.seqNo
    ensures SortedRows(rows + [row])
    decreases |rows|
  {
    if |rows| > 0 {
      assert (rows + [row])[1..] == rows[1..] + [row];
      SortedSnoc(rows[1..], row);
    }
  }

  // ---------------------------------------------------------------------
  // `get_messages`: SQLite LIMIT/OFFSET arithmetic
  // ---------------------------------------------------------------------

  /** `LIMIT lim OFFSET off` over rows: a negative offset counts as zero and
      a negative limit means no limit. */
  function LimitOffset(rows: seq<StoredMessage>, lim: int, off: int): (r: seq<StoredMessage>)
    ensures lim >= 0 ==> |r| <= lim
  {
    var from := if off <= 0 then 0 else if off >= |rows| then |rows| else off;
    var tail := rows[from..];
    if lim < 0 || lim >= |tail| then tail else tail[..lim]
  }

  /** The page before the `offset` newest rows, at most `limit` long. */
  function Page(rows: seq<StoredMessage>, limit: int, offset: int): seq<StoredMessage> {
    var remaining := |rows| - offset;
    if remaining <= 0 then []
    else
      var start := if remaining - limit > 0 then remaining - limit else 0;
      LimitOffset(rows, remaining - start, start)
  }

  /** The page as a slice: it ends `offset` rows before the newest and
      holds at most `limit` rows. */
  function Window(rows: seq<StoredMessage>, limit: nat, offset: nat): (w: seq<StoredMessage>)
    ensures |w| <= limit
  {
    var hi := if offset >= |rows| then 0 else |rows| - offset;
    var lo := if hi > limit then hi - limit else 0;
    rows[lo..hi]
  }

  /** For a non-negative limit and offset the SQL arithmetic of `get_messages`
      selects exactly that slice; it is empty once the offset reaches the
      total. */
  lemma PageWindow(rows: seq<StoredMessage>, limit: int, offset: int)
    requires limit >= 0 && offset >= 0
    ensures Page(rows, limit, offset) == Window(rows, limit, offset)
    ensures offset >= |rows| ==> Page(rows, limit, offset) == []
  {
    if offset < |rows| {
      var hi := |rows| - offset;
      var lo := if hi - limit > 0 then hi - limit else 0;
      assert rows[lo..][..hi - lo] == rows[lo..hi];
    }
  }

  /** Scrolling up: the page just older than a page, followed by that page,
      is one page of twice the size. */
  lemma PagesTile(rows: seq<StoredMessage>, limit: nat, offset: nat)
    ensures Window(rows, limit, offset + limit) + Window(rows, limit, offset) == Window(rows, 2 * limit, offset)
  {
    var hi := if offset >= |rows| then 0 else |rows| - offset;
    if hi > limit {
      var mid := hi - limit;
      var lo := if mid > limit then mid - limit else 0;
      assert rows[lo..mid] + rows[mid..hi] == rows[lo..hi];
    }
  }

  /** With no offset and a limit covering everything, the page is every row. */
  lemma FullPage(rows: seq<StoredMessage>, limit: int)
    requires limit >= |rows|
    ensures Page(rows, limit, 0) == rows
  {
    PageWindow(rows, limit, 0);
    assert rows[0..|rows|] == rows;
  }

  // ---------------------------------------------------------------------
  // `set_system_prompt` on one conversation's rows
  // ---------------------------------------------------------------------

  /** The conversation opens with a system prompt at sequence number 0. */
  predicate HasSystemAtZero(rows: seq<StoredMessage>) {
    |rows| > 0 && rows[0].seqNo == 0 && rows[0].role == SYSTEM
  }

  /** `UPDATE messages SET seq = seq + 1` */
  function ShiftSeqs(rows: seq<StoredMessage>): (r: seq<StoredMessage>)
    ensures |r| == |rows|
    ensures forall i :: 0 <= i < |rows| ==>
      r[i] == StoredMessage(rows[i].seqNo + 1, rows[i].role, rows[i].content)
  {
    seq(|rows|, i requires 0 <= i < |rows| => StoredMessage(rows[i].seqNo + 1, rows[i].role, rows[i].content))
  }

  /** The rows after `set_system_prompt(text)` on an existing conversation. */
  function WithSystemPrompt(rows: seq<StoredMessage>, text: string): seq<StoredMessage> {
    if text != "" then
      if HasSystemAtZero(rows) then [StoredMessage(0, SYSTEM, Text(text))] + rows[1..]
      else [StoredMessage(0, SYSTEM, Text(text))] + ShiftSeqs(rows)
    else if HasSystemAtZero(rows) then rows[1..]
    else rows
  }

  /** `get_system_prompt`: the first system message's content, or "". */
  function SystemPromptOf(rows: seq<StoredMessage>): Content {
    if |rows| == 0 then Text("")
    else if rows[0].role == SYSTEM then rows[0].content
    else SystemPromptOf(rows[1..])
  }

  /** The prompt lookup returns the content of the lowest-numbered system
      row, and "" when there is none. */
  lemma {:induction false} SystemPromptIsFirst(rows: seq<StoredMessage>)
    ensures (forall i :: 0 <= i < |rows| ==> rows[i].role != SYSTEM) ==> SystemPromptOf(rows) == Text("")
    ensures forall i :: 0 <= i < |rows| && rows[i].role == SYSTEM && (forall j :: 0 <= j < i ==> rows[j].role != SYSTEM) ==>
      SystemPromptOf(rows) == rows[i].content
    decreases |rows|
  {
    if |rows| > 0 && rows[0].role != SYSTEM {
      var tail := rows[1..];
      SystemPromptIsFirst(tail);
      assert forall i :: 0 <= i < |tail| ==> tail[i] == rows[i + 1];
      forall i | 0 <= i < |rows| && rows[i].role == SYSTEM && (forall j :: 0 <= j < i ==> rows[j].role != SYSTEM)
        ensures SystemPromptOf(rows) == rows[i].content
      {
        assert i > 0;
        assert tail[i - 1] == rows[i];
        assert forall j :: 0 <= j < i - 1 ==> tail[j].role != SYSTEM by {
          forall j | 0 <= j < i - 1 ensures tail[j].role != SYSTEM {
            assert tail[j] == rows[j + 1];
          }
        }
      }
    }
  }

  /** Setting or clearing the system prompt keeps the rows sorted. */
  lemma SystemPromptSorted(rows: seq<StoredMessage>, text: string)
    requires SortedRows(rows)
    ensures SortedRows(WithSystemPrompt(rows, text))
  {
    var r := WithSystemPrompt(rows, text);
    if text != "" && !HasSystemAtZero(rows) {
      var shifted := ShiftSeqs(rows);
      SortedIsOrdered(rows);
      SortedIsOrdered(shifted);
      assert r[1..] == shifted;
    } else if text != "" {
      assert r[1..] == rows[1..];
    }
  }

  /** A non-empty prompt becomes the seq-0 system message and is what
      `get_system_prompt` returns; every other message is kept in order,
      renumbered by one when the prompt was inserted. */
  lemma SystemPromptSet(rows: seq<StoredMessage>, text: string)
    requires text != ""
    ensures var r := WithSystemPrompt(rows, text);
      && HasSystemAtZero(r)
      && SystemPromptOf(r) == Text(text)
      && r[1..] == if HasSystemAtZero(rows) then rows[1..] else ShiftSeqs(rows)
  {
  }

  /** An empty prompt removes a seq-0 system message and nothing else. */
  lemma SystemPromptCleared(rows: seq<StoredMessage>)
    requires SortedRows(rows)
    ensures var r := WithSystemPrompt(rows, "");
      && !HasSystemAtZero(r)
      && r == if HasSystemAtZero(rows) then rows[1..] else rows
  {
    if HasSystemAtZero(rows) && |rows| > 1 {
      assert rows[0].seqNo < rows[1].seqNo;
    }
  }

  /** Setting the same non-empty prompt twice is setting it once. */
  lemma SystemPromptIdempotent(rows: seq<StoredMessage>, text: string)
    requires text != ""
    ensures WithSystemPrompt(WithSystemPrompt(rows, text), text) == WithSystemPrompt(rows, text)
  {
  }

  /** `update_message`: the row numbered `seqNo` gets the new content. */
  function UpdateRows(rows: seq<StoredMessage>, seqNo: int, content: Content): (r: seq<StoredMessage>)
    ensures |r| == |rows|
  {
    seq(|rows|, i requires 0 <= i < |rows| =>
      if rows[i].seqNo == seqNo then StoredMessage(seqNo, rows[i].role, content) else rows[i])
  }

  /** Only the matching row's content changes; numbers and roles stay, so
      the rows stay sorted. */
  lemma UpdateRowsEffect(rows: seq<StoredMessage>, seqNo: int, content: Content)
    requires SortedRows(rows)
    ensures SortedRows(UpdateRows(rows, seqNo, content))
    ensures forall i :: 0 <= i < |rows| ==>
      && UpdateRows(rows, seqNo, content)[i].seqNo == rows[i].seqNo
      && UpdateRows(rows, seqNo, content)[i].role == rows[i].role
      && (rows[i].seqNo == seqNo ==> UpdateRows(rows, seqNo, content)[i].content == content)
      && (rows[i].seqNo != seqNo ==> UpdateRows(rows, seqNo, content)[i] == rows[i])
  {
    SameNumbersSorted(rows, UpdateRows(rows, seqNo, content));
  }

  /** Sortedness depends on the sequence numbers alone. */
  lemma {:induction false} SameNumbersSorted(a: seq<StoredMessage>, b: seq<StoredMessage>)
    requires |a| == |b| && forall i :: 0 <= i < |a| ==> a[i].seqNo == b[i].seqNo
    requires SortedRows(a)
    ensures SortedRows(b)
    decreases |a|
  {
    if |a| > 0 {
      SameNumbersSorted(a[1..], b[1..]);
    }
  }

  // ---------------------------------------------------------------------
  // `auto_title`
  // ---------------------------------------------------------------------

  /** The text a first user message offers for a title: a string as is, a
      part list its first text part ("" without one). */
  function TitleSource(c: Content): string {
    match c
    case Text(s) => s
    case Parts(ps) => FirstText(ps)
  }

  function FirstText(ps: seq<Part>): string {
    if |ps| == 0 then "" else if ps[0].TextPart? then ps[0].text else FirstText(ps[1..])
  }

  /** The title made from a text: stripped, cut to 40 characters, with an
      ellipsis when something was cut; none for blank text. */
  function TitleFrom(text: string): Option<string> {
    var s := Strip(text);
    if s == "" then None
    else Some(Take(s, TITLE_LENGTH) + (if |s| > TITLE_LENGTH then "\U{2026}" else ""))
  }

  /** A title is at most 41 characters, starts with the stripped text, and
      ends in an ellipsis exactly when the stripped text was longer than 40. */
  lemma TitleShape(text: string)
    ensures TitleFrom(text).None? <==> Strip(text) == ""
    ensures TitleFrom(text).Some? ==>
      var t := TitleFrom(text).value;
      var s := Strip(text);
      && |t| <= TITLE_LENGTH + 1
      && (|s| <= TITLE_LENGTH ==> t == s)
      && (|s| > TITLE_LENGTH ==> |t| == TITLE_LENGTH + 1 && t[..TITLE_LENGTH] == s[..TITLE_LENGTH]
                                  && t[TITLE_LENGTH] == '\U{2026}')
  {
  }

  /** The first user message's content, by sequence order. */
  function FirstUserContent(rows: seq<StoredMessage>): Option<Content> {
    if |rows| == 0 then None
    else if rows[0].role == USER then Some(rows[0].content)
    else FirstUserContent(rows[1..])
  }

  // ---------------------------------------------------------------------
  // The store
  // ---------------------------------------------------------------------

  /** The pick among conversations when the active one is gone: one whose
      last update is the most recent. */
  predicate MostRecent(convs: map<ConvId, Conversation>, id: ConvId) {
    id in convs && forall k :: k in convs ==> convs[k].updatedAt <= convs[id].updatedAt
  }

  lemma {:induction false} MostRecentExists(convs: map<ConvId, Conversation>)
    requires convs != map[]
    ensures exists id :: MostRecent(convs, id)
    decreases |convs|
  {
    var k :| k in convs;
    var rest := convs - {k};
    assert |rest| == |convs| - 1;
    if rest == map[] {
      forall j | j in convs ensures convs[j].updatedAt <= convs[k].updatedAt {
        assert j !in rest;
      }
      assert MostRecent(convs, k);
    } else {
      MostRecentExists(rest);
      var best :| MostRecent(rest, best);
      if convs[k].updatedAt > convs[best].updatedAt {
        forall j | j in convs ensures convs[j].updatedAt <= convs[k].updatedAt {
          if j != k { assert j in rest; }
        }
        assert MostRecent(convs, k);
      } else {
        forall j | j in convs ensures convs[j].updatedAt <= convs[best].updatedAt {
          if j != k { assert j in rest; }
        }
        assert MostRecent(convs, best);
      }
    }
  }

  /** What the schema guarantees: one message table per conversation
      (the cascade), rows sorted by sequence number, ids below the id
      bound, timestamps in the past, and an active id that exists. */
  predicate Tables(convs: map<ConvId, Conversation>, msgs: map<ConvId, seq<StoredMessage>>,
                   active: Option<ConvId>, idBound: nat, now: nat)
  {
    && convs.Keys == msgs.Keys
    && (forall c :: c in msgs ==> SortedRows(msgs[c]))
    && (forall c :: c in convs ==> c < idBound && convs[c].updatedAt <= now)
    && (active.Some? ==> active.value in convs)
  }

  /** Deleting a conversation (and, by cascade, its messages) keeps the
      tables consistent once an active id naming it is unset. */
  lemma TablesAfterDelete(convs: map<ConvId, Conversation>, msgs: map<ConvId, seq<StoredMessage>>,
                          active: Option<ConvId>, idBound: nat, now: nat, cid: ConvId)
    requires Tables(convs, msgs, active, idBound, now)
    ensures Tables(convs - {cid}, msgs - {cid}, if active == Some(cid) then None else active, idBound, now)
  {
  }

  /** Deleting a conversation empties the tables exactly when it was the
      only one, and then empties the message table too. */
  lemma DeleteEmpties(convs: map<ConvId, Conversation>, msgs: map<ConvId, seq<StoredMessage>>,
                      active: Option<ConvId>, idBound: nat, now: nat, cid: ConvId)
    requires Tables(convs, msgs, active, idBound, now) && convs != map[]
    ensures (convs - {cid} == map[]) <==> convs.Keys == {cid}
    ensures convs - {cid} == map[] ==> msgs - {cid} == map[]
  {
    if convs - {cid} == map[] {
      assert convs.Keys - {cid} == {};
      var k :| k in convs;
      assert (msgs - {cid}).Keys == {};
    } else {
      var k :| k in convs - {cid};
      assert k in convs.Keys && k != cid;
    }
  }

  /** Appending a message to an existing conversation and stamping it with
      a new time keeps the tables consistent and makes that conversation
      the most recently updated. */
  lemma TablesAfterAppend(convs: map<ConvId, Conversation>, msgs: map<ConvId, seq<StoredMessage>>,
                          active: Option<ConvId>, idBound: nat, now: nat,
                          cid: ConvId, role: string, content: Content)
    requires Tables(convs, msgs, active, idBound, now) && cid in convs
    ensures var convs' := convs[cid := convs[cid].(updatedAt := now + 1)];
      && Tables(convs', msgs[cid := msgs[cid] + [StoredMessage(NextSeq(msgs[cid]), role, content)]],
                active, idBound, now + 1)
      && convs'.Keys == convs.Keys && convs' != map[]
      && MostRecent(convs', cid)
  {
    AppendKeepsSorted(msgs[cid], role, content);
  }

  class Store {
    var conversations: map<ConvId, Conversation>
    var messages: map<ConvId, seq<StoredMessage>>
    var activeId: Option<ConvId>
    /** Every id ever handed out is below this. */
    var nextId: nat
    /** The current time; every stored timestamp is at most this. */
    var clock: nat

    /** What the schema guarantees, for this store's tables. */
    predicate ValidTables()
      reads this
    {
      Tables(conversations, messages, activeId, nextId, clock)
    }

    /** The store invariant: additionally, at least one conversation exists. */
    predicate Valid()
      reads this
    {
      ValidTables() && conversations != map[]
    }

    function Rows(c: ConvId): seq<StoredMessage>
      reads this
    {
      if c in messages then messages[c] else []
    }

    /** Opens a store over existing tables: the saved active id is kept only
        if it names a conversation, and an empty store gets a first
        conversation, which becomes active. */
    constructor (convs: map<ConvId, Conversation>, rows: map<ConvId, seq<StoredMessage>>,
                 savedActive: Option<ConvId>, idBound: nat, now: nat)
      requires convs.Keys == rows.Keys
      requires forall c :: c in rows ==> SortedRows(rows[c])
      requires forall c :: c in convs ==> c < idBound && convs[c].updatedAt <= now
      ensures Valid()
      ensures |convs| > 0 ==>
        && conversations == convs && messages == rows
        && activeId == (if savedActive.Some? && savedActive.value in convs then savedActive else None)
      ensures |convs| == 0 ==>
        && |conversations| == 1 && activeId.Some? && Rows(activeId.value) == []
        && activeId.value in conversations && conversations[activeId.value].title == DEFAULT_TITLE
    {
      conversations := convs;
      messages := rows;
      nextId := idBound;
      clock := now;
      activeId := if savedActive.Some? && savedActive.value in convs then savedActive else None;
      new;
      if |conversations| == 0 {
        var id := NewConversation(DEFAULT_TITLE);
      }
    }

    /** `new_conversation`: a fresh, empty, now-active conversation. */
    method NewConversation(title: string) returns (id: ConvId)
      requires ValidTables()
      modifies this
      ensures Valid()
      ensures id !in old(conversations)
      ensures conversations == old(conversations)[id := Conversation(title, clock, clock)]
      ensures messages == old(messages)[id := []]
      ensures activeId == Some(id)
      ensures id == old(nextId) && nextId == old(nextId) + 1 && clock == old(clock) + 1
    {
      id := nextId;
      nextId := nextId + 1;
      clock := clock + 1;
      conversations := conversations[id := Conversation(title, clock, clock)];
      messages := messages[id := []];
      activeId := Some(id);
    }

    /** The `active_id` setter: only an existing conversation can become active. */
    method SetActive(cid: ConvId)
      requires Valid()
      modifies this
      ensures Valid()
      ensures activeId == if cid in conversations then Some(cid) else old(activeId)
      ensures conversations == old(conversations) && messages == old(messages)
      ensures nextId == old(nextId) && clock == old(clock)
    {
      if cid in conversations {
        activeId := Some(cid);
      }
    }

    /** `delete_conversation`: the conversation and its messages go; if it
        was the last one a fresh conversation replaces it, otherwise an
        unset active id falls to the most recently updated conversation. */
    method DeleteConversation(cid: ConvId)
      requires Valid()
      modifies this
      ensures Valid()
      ensures cid !in conversations
      ensures activeId.Some?
      ensures old(conversations).Keys != {cid} ==>
        conversations == old(conversations) - {cid} && messages == old(messages) - {cid}
      ensures old(conversations).Keys == {cid} ==>
        conversations.Keys == {activeId.value} && messages == map[activeId.value := []]
        && conversations[activeId.value].title == DEFAULT_TITLE
      ensures old(activeId).Some? && old(activeId).value != cid ==> activeId == old(activeId)
      ensures old(conversations).Keys != {cid} && (old(activeId).None? || old(activeId) == Some(cid)) ==>
        MostRecent(conversations, activeId.value)
    {
      TablesAfterDelete(conversations, messages, activeId, nextId, clock, cid);
      DeleteEmpties(conversations, messages, activeId, nextId, clock, cid);
      ghost var wasLast := conversations.Keys == {cid};
      conversations := conversations - {cid};
      messages := messages - {cid};
      if activeId == Some(cid) {
        activeId := None;
      }
      if conversations == map[] {
        assert wasLast && messages == map[];
        var id := NewConversation(DEFAULT_TITLE);
      } else {
        assert !wasLast;
        if activeId.None? {
          MostRecentExists(conversations);
          var best :| MostRecent(conversations, best);
          activeId := Some(best);
        }
      }
    }

    /** `rename_conversation`; an unknown id changes nothing. */
    method RenameConversation(cid: ConvId, title: string)
      requires Valid()
      modifies this
      ensures Valid()
      ensures conversations == if cid in old(conversations)
        then old(conversations)[cid := old(conversations)[cid].(title := title)]
        else old(conversations)
      ensures messages == old(messages) && activeId == old(activeId)
      ensures nextId == old(nextId) && clock == old(clock)
    {
      if cid in conversations {
        conversations := conversations[cid := conversations[cid].(title := title)];
      }
    }

    /** `add_message`: the message gets the next sequence number of its
        conversation, which becomes the most recently updated one. */
    method AddMessage(convId: ConvId, role: string, content: Content) returns (result: Result<int, StoreError>)
      requires Valid()
      modifies this
      ensures Valid()
      ensures convId !in old(conversations) ==>
        result == Err(UnknownConversation(convId))
        && conversations == old(conversations) && messages == old(messages) && clock == old(clock)
      ensures convId in old(conversations) ==>
        && result == Ok(NextSeq(old(messages)[convId]))
        && messages == old(messages)[convId := old(messages)[convId] + [StoredMessage(result.value, role, content)]]
        && conversations == old(conversations)[convId := old(conversations)[convId].(updatedAt := clock)]
        && clock == old(clock) + 1
        && MostRecent(conversations, convId)
      ensures activeId == old(activeId) && nextId == old(nextId)
    {
      if convId !in conversations {
        return Err(UnknownConversation(convId));
      }
      var seqNo := NextSeq(messages[convId]);
      var rows := messages[convId] + [StoredMessage(seqNo, role, content)];
      var touched := conversations[convId].(updatedAt := clock + 1);
      TablesAfterAppend(conversations, messages, activeId, nextId, clock, convId, role, content);
      messages, conversations, clock := messages[convId := rows], conversations[convId := touched], clock + 1;
      result := Ok(seqNo);
    }

    /** `get_messages(conv_id, limit, offset)`, oldest first. */
    function GetMessages(convId: ConvId, limit: int, offset: int): (page: seq<StoredMessage>)
      reads this
      ensures limit >= 0 && offset >= 0 ==> page == Window(Rows(convId), limit, offset)
      ensures offset >= |Rows(convId)| ==> page == []
    {
      if limit >= 0 && offset >= 0 then
        PageWindow(Rows(convId), limit, offset);
        Page(Rows(convId), limit, offset)
      else
        Page(Rows(convId), limit, offset)
    }

    /** `get_all_messages`: every message of the conversation in sequence
        order, as role and content. */
    function GetAllMessages(convId: ConvId): (r: seq<Message>)
      reads this
      ensures |r| == |Rows(convId)|
      ensures forall i :: 0 <= i < |r| ==> r[i] == Message(Rows(convId)[i].role, Rows(convId)[i].content)
    {
      var rows := Rows(convId);
      seq(|rows|, i requires 0 <= i < |rows| => Message(rows[i].role, rows[i].content))
    }

    /** `message_count` */
    function MessageCount(convId: ConvId): nat
      reads this
    {
      |Rows(convId)|
    }

    /** `clear_messages`: that conversation's messages and nothing else. */
    method ClearMessages(convId: ConvId)
      requires Valid()
      modifies this
      ensures Valid()
      ensures messages == if convId in old(messages) then old(messages)[convId := []] else old(messages)
      ensures conversations == old(conversations) && activeId == old(activeId)
      ensures nextId == old(nextId) && clock == old(clock)
    {
      if convId in messages {
        messages := messages[convId := []];
      }
    }

    /** `update_message`: the content of message `seqNo` of that
        conversation, and nothing else. */
    method UpdateMessage(convId: ConvId, seqNo: int, content: Content)
      requires Valid()
      modifies this
      ensures Valid()
      ensures messages == if convId in old(messages)
        then old(messages)[convId := UpdateRows(old(messages)[convId], seqNo, content)]
        else old(messages)
      ensures conversations == old(conversations) && activeId == old(activeId)
      ensures nextId == old(nextId) && clock == old(clock)
    {
      if convId in messages {
        UpdateRowsEffect(messages[convId], seqNo, content);
        messages := messages[convId := UpdateRows(messages[convId], seqNo, content)];
      }
    }

    /** `get_system_prompt` */
    function GetSystemPrompt(convId: ConvId): (prompt: Content)
      reads this
      ensures (forall i :: 0 <= i < |Rows(convId)| ==> Rows(convId)[i].role != SYSTEM) ==> prompt == Text("")
      ensures forall i ::
        (0 <= i < |Rows(convId)| && Rows(convId)[i].role == SYSTEM
         && (forall j :: 0 <= j < i ==> Rows(convId)[j].role != SYSTEM)) ==>
        prompt == Rows(convId)[i].content
    {
      SystemPromptIsFirst(Rows(convId));
      SystemPromptOf(Rows(convId))
    }

    /** `set_system_prompt`: inserting a prompt into an unknown conversation
        is refused by the foreign key; everything else acts on that
        conversation's rows only. */
    method SetSystemPrompt(convId: ConvId, text: string) returns (result: Outcome<StoreError>)
      requires Valid()
      modifies this
      ensures Valid()
      ensures result.Fail? <==> convId !in old(messages) && text != ""
      ensures messages == if convId in old(messages)
        then old(messages)[convId := WithSystemPrompt(old(messages)[convId], text)]
        else old(messages)
      ensures conversations == old(conversations) && activeId == old(activeId)
      ensures nextId == old(nextId) && clock == old(clock)
    {
      result := Pass;
      if convId !in messages {
        if text != "" {
          result := Fail(UnknownConversation(convId));
        }
        return;
      }
      var rows := messages[convId];
      SystemPromptSorted(rows, text);
      var existing := |rows| > 0 && rows[0].seqNo == 0 && rows[0].role == SYSTEM;
      if text != "" {
        if existing {
          rows := [StoredMessage(0, SYSTEM, Text(text))] + rows[1..];
        } else {
          rows := [StoredMessage(0, SYSTEM, Text(text))] + ShiftSeqs(rows);
        }
      } else if existing {
        rows := rows[1..];
      }
      messages := messages[convId := rows];
    }

    /** `auto_title`: a conversation still titled "New Chat" is named after
        its first user message, when that yields non-blank text. */
    method AutoTitle(cid: ConvId)
      requires Valid()
      modifies this
      ensures Valid()
      ensures conversations == (
        if cid in old(conversations) && old(conversations)[cid].title == DEFAULT_TITLE
           && FirstUserContent(old(Rows(cid))).Some?
           && TitleFrom(TitleSource(FirstUserContent(old(Rows(cid))).value)).Some?
        then old(conversations)[cid := old(conversations)[cid].(
               title := TitleFrom(TitleSource(FirstUserContent(old(Rows(cid))).value)).value)]
        else old(conversations))
      ensures messages == old(messages) && activeId == old(activeId)
      ensures nextId == old(nextId) && clock == old(clock)
    {
      if cid !in conversations || conversations[cid].title != DEFAULT_TITLE {
        return;
      }
      var first := FirstUserContent(Rows(cid));
      if first.None? {
        return;
      }
      var title := TitleFrom(TitleSource(first.value));
      if title.Some? {
        RenameConversation(cid, title.value);
      }
    }
  }
}
