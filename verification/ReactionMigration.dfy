/** The script that copies message reactions from a document store into the feedback table. */
module ReactionMigration {
  import opened Schema
  import opened Sequences

  datatype Rating = ThumbsUp | ThumbsDown

  /** A document under either spelling of its fields; absent fields are None. */
  datatype Doc = Doc(
    reaction: Option<string>,
    tenantId: Option<string>, tenant_id: Option<string>,
    conversationId: Option<string>, conversation_id: Option<string>,
    messageId: Option<string>, message_id: Option<string>,
    userId: Option<string>, user_id: Option<string>,
    feedbackText: Option<string>, feedback_text: Option<string>)

  /** The unique key of the table. */
  datatype FeedbackKey = FeedbackKey(tenant: Id, message: Id, user: Id)

  datatype Feedback = Feedback(conversation: Id, rating: Rating, comment: Option<string>, reasons: Option<seq<string>>)

  type Table = map<FeedbackKey, Feedback>

  datatype Reaction = Reaction(key: FeedbackKey, conversation: Id, rating: Rating, comment: Option<string>)

  datatype Report = Report(scanned: nat, inserted: nat, updated: nat, skipped: nat)

  // ---------- One document ----------

  predicate Falsy(v: Option<string>) {
    v.None? || v.value == ""
  }

  /** `a or b` */
  function Or(a: Option<string>, b: Option<string>): Option<string> {
    if Falsy(a) then b else a
  }

  function NormaliseReaction(doc: Doc): Option<Reaction> {
    var tenant, conversation := Or(doc.tenantId, doc.tenant_id), Or(doc.conversationId, doc.conversation_id);
    var message, user := Or(doc.messageId, doc.message_id), Or(doc.userId, doc.user_id);
    var comment := Or(Or(doc.feedbackText, doc.feedback_text), None);
    if doc.reaction != Some("thumbs_up") && doc.reaction != Some("thumbs_down") then None
    else if Falsy(tenant) || Falsy(conversation) || Falsy(message) || Falsy(user) then None
    else Some(Reaction(FeedbackKey(tenant.value, message.value, user.value), conversation.value,
                       if doc.reaction == Some("thumbs_up") then ThumbsUp else ThumbsDown, comment))
  }

  /** The reaction of a document that can be stored: it is mappable and its conversation exists in its tenant.
      `conversations` holds (id, tenant) pairs. */
  function Storable(conversations: set<(Id, Id)>, doc: Doc): Option<Reaction> {
    var r := NormaliseReaction(doc);
    if r.Some? && (r.value.conversation, r.value.key.tenant) in conversations then r else None
  }

  /** The session's rows after one storable reaction. A dry run changes rows it finds but adds none. */
  function Stored(table: Table, r: Reaction, dryRun: bool): Table {
    if r.key in table then
      var row := table[r.key];
      table[r.key := row.(rating := r.rating, comment := r.comment,
                          reasons := if row.reasons.None? then Some([]) else row.reasons)]
    else if dryRun then table
    else table[r.key := Feedback(r.conversation, r.rating, r.comment, Some([]))]
  }

  /** What the script does with a sequence of documents. */
  function Run(table: Table, conversations: set<(Id, Id)>, docs: seq<Doc>, dryRun: bool): (Table, Report) {
    if docs == [] then (table, Report(0, 0, 0, 0))
    else
      var (t, n) := Run(table, conversations, docs[..|docs| - 1], dryRun);
      var doc := docs[|docs| - 1];
      var n' := n.(scanned := n.scanned + 1);
      if NormaliseReaction(doc).None? then (t, n')
      else
        var r := Storable(conversations, doc);
        if r.None? then (t, n'.(skipped := n.skipped + 1))
        else if r.value.key in t then (Stored(t, r.value, dryRun), n'.(updated := n.updated + 1))
        else (Stored(t, r.value, dryRun), n'.(inserted := n.inserted + 1))
  }

  class Script {
    var table: Table

    constructor (table: Table)
      ensures this.table == table
    {
      this.table := table;
    }

    method Migrate(conversations: set<(Id, Id)>, docs: seq<Doc>, dryRun: bool) returns (report: Report)
      modifies this
      ensures report == Run(old(table), conversations, docs, dryRun).1
      ensures table == if dryRun then old(table) else Run(old(table), conversations, docs, false).0
    {
      var session := table;
      var scanned, inserted, updated, skipped: nat := 0, 0, 0, 0;
      for i := 0 to |docs|
        invariant table == old(table)
        invariant (session, Report(scanned, inserted, updated, skipped)) == Run(table, conversations, docs[..i], dryRun)
      {
        assert docs[..i + 1][..i] == docs[..i];
        scanned := scanned + 1;
        var normalised := NormaliseReaction(docs[i]);
        if normalised.Some? {
          var r := normalised.value;
          if (r.conversation, r.key.tenant) !in conversations {
            skipped := skipped + 1;
          } else if r.key !in session {
            if !dryRun {
              session := session[r.key := Feedback(r.conversation, r.rating, r.comment, Some([]))];
            }
            inserted := inserted + 1;
          } else {
            var row := session[r.key].(rating := r.rating, comment := r.comment);
            if row.reasons.None? {
              row := row.(reasons := Some([]));
            }
            session := session[r.key := row];
            updated := updated + 1;
          }
        }
      }
      assert docs[..|docs|] == docs;
      if !dryRun {
        table := session;
      }
      report := Report(scanned, inserted, updated, skipped);
    }
  }

  // ---------- Counting ----------

  function Unmappable(docs: seq<Doc>): seq<Doc> {
    Filter(docs, (d: Doc) => NormaliseReaction(d).None?)
  }

  /** Every document is accounted for once, and the table grows by what was inserted. */
  lemma {:induction false} MigrationCounts(table: Table, conversations: set<(Id, Id)>, docs: seq<Doc>, dryRun: bool)
    ensures var (t, n) := Run(table, conversations, docs, dryRun);
      && n.scanned == |docs|
      && n.scanned == n.inserted + n.updated + n.skipped + |Unmappable(docs)|
      && |t| == |table| + if dryRun then 0 else n.inserted
  {
    if docs != [] {
      var front, last := docs[..|docs| - 1], docs[|docs| - 1];
      assert docs == front + [last];
      MigrationCounts(table, conversations, front, dryRun);
      FilterAppend(front, [last], (d: Doc) => NormaliseReaction(d).None?);
    }
  }

  // ---------- The last document of a key wins ----------

  function LastFor(conversations: set<(Id, Id)>, docs: seq<Doc>, key: FeedbackKey): Option<Reaction> {
    if docs == [] then None
    else
      var r := Storable(conversations, docs[|docs| - 1]);
      if r.Some? && r.value.key == key then r else LastFor(conversations, docs[..|docs| - 1], key)
  }

  /** What a run makes of one key. */
  ghost predicate Settled(before: Table, after: Table, last: Option<Reaction>, key: FeedbackKey) {
    if last.None? then
      (key in after <==> key in before) && (key in before ==> after[key] == before[key])
    else
      && key in after && after[key].rating == last.value.rating && after[key].comment == last.value.comment
      && after[key].reasons.Some?
      && (key in before ==> after[key].conversation == before[key].conversation
                            && (before[key].reasons.Some? ==> after[key].reasons == before[key].reasons))
  }

  lemma {:induction false} LastWins(table: Table, conversations: set<(Id, Id)>, docs: seq<Doc>, key: FeedbackKey)
    ensures Settled(table, Run(table, conversations, docs, false).0, LastFor(conversations, docs, key), key)
  {
    if docs != [] {
      LastWins(table, conversations, docs[..|docs| - 1], key);
    }
  }

  lemma {:induction false} KnownKeysInsertNothing(table: Table, conversations: set<(Id, Id)>, docs: seq<Doc>)
    requires forall key :: LastFor(conversations, docs, key).Some? ==> key in table
    ensures Run(table, conversations, docs, false).1.inserted == 0
  {
    if docs != [] {
      var front, last := docs[..|docs| - 1], Storable(conversations, docs[|docs| - 1]);
      forall key | LastFor(conversations, front, key).Some? ensures key in table {
        assert LastFor(conversations, docs, key).Some?;
      }
      KnownKeysInsertNothing(table, conversations, front);
      if last.Some? {
        assert LastFor(conversations, docs, last.value.key).Some?;
        LastWins(table, conversations, front, last.value.key);
      }
    }
  }

  /** A second run over the same documents in the same order inserts nothing and leaves the table as it is. */
  lemma MigrationIsIdempotent(table: Table, conversations: set<(Id, Id)>, docs: seq<Doc>)
    ensures var (once, first) := Run(table, conversations, docs, false);
      var (twice, second) := Run(once, conversations, docs, false);
      && twice == once
      && second == first.(inserted := 0, updated := first.inserted + first.updated)
  {
    var (once, first) := Run(table, conversations, docs, false);
    var (twice, second) := Run(once, conversations, docs, false);
    forall key
      ensures LastFor(conversations, docs, key).Some? ==> key in once
      ensures key in twice <==> key in once
      ensures key in once ==> twice[key] == once[key]
    {
      LastWins(table, conversations, docs, key);
      LastWins(once, conversations, docs, key);
    }
    KnownKeysInsertNothing(once, conversations, docs);
    MigrationCounts(table, conversations, docs, false);
    MigrationCounts(once, conversations, docs, false);
    SkippedAlike(table, once, conversations, docs, false, false);
  }

  lemma {:induction false} SkippedAlike(a: Table, b: Table, conversations: set<(Id, Id)>, docs: seq<Doc>, dryA: bool, dryB: bool)
    ensures Run(a, conversations, docs, dryA).1.skipped == Run(b, conversations, docs, dryB).1.skipped
  {
    if docs != [] {
      SkippedAlike(a, b, conversations, docs[..|docs| - 1], dryA, dryB);
    }
  }

  // ---------- The dry run ----------

  /** The keys of storable reactions the table does not hold, once per document. */
  function NewKeys(table: Table, conversations: set<(Id, Id)>, docs: seq<Doc>): seq<FeedbackKey> {
    if docs == [] then []
    else
      var r := Storable(conversations, docs[|docs| - 1]);
      NewKeys(table, conversations, docs[..|docs| - 1]) + if r.Some? && r.value.key !in table then [r.value.key] else []
  }

  lemma {:induction false} DryRunInserts(table: Table, conversations: set<(Id, Id)>, docs: seq<Doc>)
    ensures var (t, n) := Run(table, conversations, docs, true);
      t.Keys == table.Keys && n.inserted == |NewKeys(table, conversations, docs)|
  {
    if docs != [] {
      DryRunInserts(table, conversations, docs[..|docs| - 1]);
    }
  }

  lemma {:induction false} RealRunInserts(table: Table, conversations: set<(Id, Id)>, docs: seq<Doc>)
    ensures var (t, n) := Run(table, conversations, docs, false);
      && t.Keys == table.Keys + (set k | k in NewKeys(table, conversations, docs))
      && n.inserted == |Distinct(NewKeys(table, conversations, docs))|
  {
    if docs != [] {
      var front := NewKeys(table, conversations, docs[..|docs| - 1]);
      RealRunInserts(table, conversations, docs[..|docs| - 1]);
      DistinctKeepsAll(front);
      var r := Storable(conversations, docs[|docs| - 1]);
      if r.Some? {
        assert (front + [r.value.key])[..|front|] == front;
      }
      assert front + [] == front;
    }
  }

  lemma {:induction false} DistinctSize<T>(s: seq<T>)
    ensures |Distinct(s)| <= |s|
    ensures |Distinct(s)| == |s| <==> NoRepeats(s)
  {
    if s != [] {
      var front, last := s[..|s| - 1], s[|s| - 1];
      assert s == front + [last];
      DistinctSize(front);
      DistinctKeepsAll(front);
      assert NoRepeats(s) <==> NoRepeats(front) && last !in front;
    }
  }

  /** The dry run announces at least as many inserts as there will be, and exactly as many when no two documents would
      insert the same key. */
  lemma DryRunPredictsIff(table: Table, conversations: set<(Id, Id)>, docs: seq<Doc>)
    ensures var dry, real' := Run(table, conversations, docs, true).1, Run(table, conversations, docs, false).1;
      && real'.inserted <= dry.inserted
      && (dry == real' <==> NoRepeats(NewKeys(table, conversations, docs)))
  {
    DryRunInserts(table, conversations, docs);
    RealRunInserts(table, conversations, docs);
    DistinctSize(NewKeys(table, conversations, docs));
    MigrationCounts(table, conversations, docs, true);
    MigrationCounts(table, conversations, docs, false);
    SkippedAlike(table, table, conversations, docs, true, false);
  }

  // ---------- What a document says ----------

  /** A field under its first spelling or, where that is absent or empty, under its second. */
  predicate Says(first: Option<string>, second: Option<string>, value: string) {
    value != "" && (first == Some(value) || ((first == None || first == Some("")) && second == Some(value)))
  }

  /** A document is mappable exactly if it is a thumb, up or down, and says where and whose it is. */
  lemma NormalisedIs(doc: Doc, r: Reaction)
    ensures NormaliseReaction(doc) == Some(r) <==>
      && ((doc.reaction == Some("thumbs_up") && r.rating == ThumbsUp) || (doc.reaction == Some("thumbs_down") && r.rating == ThumbsDown))
      && Says(doc.tenantId, doc.tenant_id, r.key.tenant) && Says(doc.conversationId, doc.conversation_id, r.conversation)
      && Says(doc.messageId, doc.message_id, r.key.message) && Says(doc.userId, doc.user_id, r.key.user)
      && (r.comment.Some? ==> Says(doc.feedbackText, doc.feedback_text, r.comment.value))
      && (r.comment.None? ==> forall text :: !Says(doc.feedbackText, doc.feedback_text, text))
  {
    assert |"thumbs_up"| != |"thumbs_down"|;
    var comment := Or(Or(doc.feedbackText, doc.feedback_text), None);
    assert comment.Some? ==> Says(doc.feedbackText, doc.feedback_text, comment.value);
  }

  /** A mappable document whose conversation is not in its tenant. */
  predicate Stray(conversations: set<(Id, Id)>, doc: Doc) {
    var r := NormaliseReaction(doc);
    r.Some? && (r.value.conversation, r.value.key.tenant) !in conversations
  }

  lemma SkippedNext(table: Table, conversations: set<(Id, Id)>, docs: seq<Doc>, dryRun: bool)
    requires docs != []
    ensures Run(table, conversations, docs, dryRun).1.skipped ==
      Run(table, conversations, docs[..|docs| - 1], dryRun).1.skipped + if Stray(conversations, docs[|docs| - 1]) then 1 else 0
  {
  }

  /** Skipped are the stray documents. */
  lemma {:induction false} SkippedAre(table: Table, conversations: set<(Id, Id)>, docs: seq<Doc>, dryRun: bool)
    ensures Run(table, conversations, docs, dryRun).1.skipped == |set i | 0 <= i < |docs| && Stray(conversations, docs[i])|
  {
    if docs != [] {
      SkippedAre(table, conversations, docs[..|docs| - 1], dryRun);
      SkippedNext(table, conversations, docs, dryRun);
      StrayNext(conversations, docs);
    }
  }

  lemma StrayNext(conversations: set<(Id, Id)>, docs: seq<Doc>)
    requires docs != []
    ensures var n := |docs| - 1;
      |set i | 0 <= i < |docs| && Stray(conversations, docs[i])| ==
      |set i | 0 <= i < |docs[..n]| && Stray(conversations, docs[..n][i])| + if Stray(conversations, docs[n]) then 1 else 0
  {
    var n := |docs| - 1;
    var before := set i | 0 <= i < |docs[..n]| && Stray(conversations, docs[..n][i]);
    var all := set i | 0 <= i < |docs| && Stray(conversations, docs[i]);
    assert all == before + if n in all then {n} else {};
  }

  /** A row that is new has the conversation of the first storable document of its key, and an empty list of reasons. */
  lemma {:induction false} FirstDecidesConversation(table: Table, conversations: set<(Id, Id)>, docs: seq<Doc>, i: nat, r: Reaction)
    requires i < |docs| && NormaliseReaction(docs[i]) == Some(r) && (r.conversation, r.key.tenant) in conversations && r.key !in table
    requires forall j :: 0 <= j < i && Storable(conversations, docs[j]).Some? ==> Storable(conversations, docs[j]).value.key != r.key
    ensures var after := Run(table, conversations, docs, false).0;
      r.key in after && after[r.key].conversation == r.conversation && after[r.key].reasons == Some([])
    decreases |docs|
  {
    var front := docs[..|docs| - 1];
    if i < |docs| - 1 {
      FirstDecidesConversation(table, conversations, front, i, r);
    } else {
      NoneSoFar(conversations, front, r.key);
      LastWins(table, conversations, front, r.key);
    }
  }

  lemma {:induction false} NoneSoFar(conversations: set<(Id, Id)>, docs: seq<Doc>, key: FeedbackKey)
    requires forall j :: 0 <= j < |docs| && Storable(conversations, docs[j]).Some? ==> Storable(conversations, docs[j]).value.key != key
    ensures LastFor(conversations, docs, key) == None
  {
    if docs != [] {
      NoneSoFar(conversations, docs[..|docs| - 1], key);
    }
  }
}
