/**
Deleting a conversation from two stores without a common transaction: R2 objects first, in
bulk calls of 1000 keys, then the D1 rows.  Anything may fail or crash in between.
*/
module Retention {
  import opened Options

  /** Ids and object keys, as sequences of code units. */
  type Name = seq<int>

  datatype Message = Message(thread: Name, rawKey: Option<Name>, parent: Option<Name>)
  datatype Attachment = Attachment(message: Name, key: Name)
  datatype Thread = Thread(trash: bool, lastAt: nat, updated: nat)

  /** A row of inbound_forward_attempts; its key is a message and a target. */
  datatype Forward = Forward(updated: nat, settled: bool)

  datatype Store = Store(
    messages: map<Name, Message>,
    attachments: map<Name, Attachment>,
    threads: map<Name, Thread>,
    events: map<Name, Option<Name>>,
    forwards: map<(Name, Name), Forward>,
    objects: set<Name>)

  // ---------------------------------------------------------------- which keys a thread names

  function RawKeys(s: Store, t: Name): set<Name> {
    set m | m in s.messages && s.messages[m].thread == t && s.messages[m].rawKey.Some? :: s.messages[m].rawKey.value
  }

  predicate AttachedTo(s: Store, a: Name, t: Name)
    requires a in s.attachments
  {
    s.attachments[a].message in s.messages && s.messages[s.attachments[a].message].thread == t
  }

  function AttachmentKeys(s: Store, t: Name): set<Name> {
    set a | a in s.attachments && AttachedTo(s, a, t) :: s.attachments[a].key
  }

  /** threadR2ObjectKeys, as a set. */
  function KeysOf(s: Store, t: Name): set<Name> { RawKeys(s, t) + AttachmentKeys(s, t) }

  const MAX_KEY: nat := 1000

  /** asText(row.key, 1_000) */
  function Clip(key: Name): Name { if |key| <= MAX_KEY then key else key[..MAX_KEY] }

  /** The keys that are handed to R2: clipped, and without the empty one. */
  function Clipped(keys: set<Name>): set<Name> { set k | k in keys && k != [] :: Clip(k) }

  function MessagesOf(s: Store, t: Name): set<Name> { set m | m in s.messages && s.messages[m].thread == t }

  // ---------------------------------------------------------------- one deletion and where it can stop

  datatype Stop =
    | Completes
    | InObjects(removed: set<Name>)     // a delete call failed; `removed` is what had gone by then
    | InEvents(cleared: set<Name>)      // objects are gone; the events of these messages are gone
    | BeforeThread                      // objects, events and messages are gone; the thread row is not

  function EventsWithout(events: map<Name, Option<Name>>, cleared: set<Name>): map<Name, Option<Name>> {
    map e | e in events && !(events[e].Some? && events[e].value in cleared) :: events[e]
  }

  predicate InThread(s: Store, m: Name, t: Name) { m in s.messages && s.messages[m].thread == t }

  /** ON DELETE SET NULL of the parent. */
  function WithoutParent(s: Store, m: Message, t: Name): Message {
    if m.parent.Some? && InThread(s, m.parent.value, t) then m.(parent := None) else m
  }

  function RepliesWithout(s: Store, t: Name): map<Name, Message> {
    map m | m in s.messages && s.messages[m].thread != t :: WithoutParent(s, s.messages[m], t)
  }

  function AttachmentsWithout(s: Store, t: Name): map<Name, Attachment> {
    map a | a in s.attachments && !AttachedTo(s, a, t) :: s.attachments[a]
  }

  function ForwardsWithout(s: Store, t: Name): map<(Name, Name), Forward> {
    map f: (Name, Name) | f in s.forwards && !InThread(s, f.0, t) :: s.forwards[f]
  }

  /** DELETE FROM mail_messages, which takes the attachments and the forwarding attempts along. */
  function WithoutMessages(s: Store, t: Name): Store {
    s.(messages := RepliesWithout(s, t),
       attachments := AttachmentsWithout(s, t),
       forwards := ForwardsWithout(s, t))
  }

  function WithoutObjects(s: Store, t: Name): Store { s.(objects := s.objects - Clipped(KeysOf(s, t))) }

  function WithoutEvents(s: Store, cleared: set<Name>): Store { s.(events := EventsWithout(s.events, cleared)) }

  /** The state in which deleteThreadData leaves the two stores. */
  function After(s: Store, t: Name, stop: Stop): Store {
    match stop
    case InObjects(removed) => s.(objects := s.objects - removed)
    case InEvents(cleared) => WithoutEvents(WithoutObjects(s, t), cleared)
    case BeforeThread => WithoutMessages(WithoutEvents(WithoutObjects(s, t), MessagesOf(s, t)), t)
    case Completes =>
      var s' := WithoutMessages(WithoutEvents(WithoutObjects(s, t), MessagesOf(s, t)), t);
      s'.(threads := s'.threads - {t})
  }

  /** No more than the thread's own objects and events can have gone. */
  predicate Possible(s: Store, t: Name, stop: Stop) {
    && (stop.InObjects? ==> stop.removed <= Clipped(KeysOf(s, t)))
    && (stop.InEvents? ==> stop.cleared <= MessagesOf(s, t))
  }

  // ---------------------------------------------------------------- what deletion keeps

  /** Objects that no row names. */
  function Orphans(s: Store): set<Name> {
    set k | k in s.objects && !Named(s, k)
  }

  predicate Named(s: Store, k: Name) {
    || (exists m :: m in s.messages && s.messages[m].rawKey == Some(k))
    || (exists a :: a in s.attachments && s.attachments[a].key == k)
  }

  /** Object keys are not empty and short enough to be handed on unclipped. */
  predicate KeysFit(s: Store, t: Name) { forall k :: k in KeysOf(s, t) ==> k != [] && |k| <= MAX_KEY }

  lemma FittingKeysAreNotClipped(s: Store, t: Name)
    requires KeysFit(s, t)
    ensures Clipped(KeysOf(s, t)) == KeysOf(s, t)
  {
  }

  /** A named object is named by this thread, or by a row that deletion leaves. */
  lemma NamedAfter(s: Store, t: Name, k: Name)
    requires Named(s, k) && k !in KeysOf(s, t)
    ensures Named(WithoutMessages(s, t), k)
  {
    var s' := WithoutMessages(s, t);
    if m :| m in s.messages && s.messages[m].rawKey == Some(k) {
      assert s.messages[m].thread == t ==> k in RawKeys(s, t);
      assert s'.messages[m].rawKey == Some(k);
    } else {
      var a :| a in s.attachments && s.attachments[a].key == k;
      assert AttachedTo(s, a, t) ==> k in AttachmentKeys(s, t);
      assert s'.attachments[a].key == k;
    }
  }

  lemma NamedByRows(s: Store, s': Store, k: Name)
    requires Named(s, k) && s.messages == s'.messages && s.attachments == s'.attachments
    ensures Named(s', k)
  {
  }

  /** Wherever deletion stops, it orphans no object: every object that is still there and was named still is. */
  lemma NoObjectIsOrphaned(s: Store, t: Name, stop: Stop)
    requires Possible(s, t, stop) && KeysFit(s, t)
    ensures Orphans(After(s, t, stop)) <= Orphans(s)
  {
    var s' := After(s, t, stop);
    FittingKeysAreNotClipped(s, t);
    forall k | k in s'.objects && Named(s, k) ensures Named(s', k) {
      if stop.BeforeThread? || stop.Completes? {
        NamedAfter(s, t, k);
        RowsLeft(s, t, stop);
        NamedByRows(WithoutMessages(s, t), s', k);
      } else {
        NamedByRows(s, s', k);
      }
    }
  }

  lemma RowsLeft(s: Store, t: Name, stop: Stop)
    requires stop.BeforeThread? || stop.Completes?
    ensures var s', left := After(s, t, stop), WithoutMessages(s, t);
            s'.messages == left.messages && s'.attachments == left.attachments
  {
    var cleared := WithoutEvents(WithoutObjects(s, t), MessagesOf(s, t));
    assert RepliesWithout(cleared, t) == RepliesWithout(s, t);
    assert AttachmentsWithout(cleared, t) == AttachmentsWithout(s, t);
  }

  /** The clipping is harmless only because keys are short: a longer key would be handed on as a different one, and its
      object would survive the row that named it. */
  lemma LongKeyIsOrphaned(s: Store, t: Name, k: Name)
    requires k in KeysOf(s, t) && k in s.objects && |k| > MAX_KEY && !Named(WithoutMessages(s, t), k)
    ensures k in Orphans(After(s, t, Completes))
  {
  }

  /** A key that is handed to R2 as it is. */
  predicate Fits(k: Name) { k != [] && |k| <= MAX_KEY }

  /** Every stored object whose key does not fit is named by another thread too. */
  predicate OthersNameUnfit(s: Store, t: Name) {
    forall k :: k in KeysOf(s, t) && k in s.objects && !Fits(k) ==> Named(WithoutMessages(s, t), k)
  }

  lemma UnfitIsNotHandedOn(s: Store, t: Name, k: Name)
    ensures k in Clipped(KeysOf(s, t)) ==> Fits(k)
    ensures k in KeysOf(s, t) && Fits(k) ==> k in Clipped(KeysOf(s, t))
  {
    if k in KeysOf(s, t) && Fits(k) { assert Clip(k) == k; }
  }

  /** Exactly when deletion orphans nothing, wherever it stops. */
  lemma NoObjectIsOrphanedIff(s: Store, t: Name, stop: Stop)
    ensures Orphans(After(s, t, stop)) <= Orphans(s) <==> stop.InObjects? || stop.InEvents? || OthersNameUnfit(s, t)
  {
    var s' := After(s, t, stop);
    if stop.InObjects? || stop.InEvents? {
      forall k | Named(s, k) ensures Named(s', k) { NamedByRows(s, s', k); }
    } else {
      forall k ensures k in Orphans(s') && k !in Orphans(s) <==> OrphanedBy(s, t, k) {
        UnfitIsNotHandedOn(s, t, k);
        NamedByTheRest(s, s', t, k);
      }
      if !OthersNameUnfit(s, t) {
        var k :| k in KeysOf(s, t) && k in s.objects && !Fits(k) && !Named(WithoutMessages(s, t), k);
        assert OrphanedBy(s, t, k);
      }
    }
  }

  predicate OrphanedBy(s: Store, t: Name, k: Name) {
    k in KeysOf(s, t) && k in s.objects && !Fits(k) && !Named(WithoutMessages(s, t), k)
  }

  lemma NamedByTheRest(s: Store, s': Store, t: Name, k: Name)
    requires s'.messages == WithoutMessages(s, t).messages && s'.attachments == WithoutMessages(s, t).attachments
    ensures Named(s', k) <==> Named(WithoutMessages(s, t), k)
    ensures Named(s, k) && !Named(s', k) ==> k in KeysOf(s, t)
    ensures k in KeysOf(s, t) ==> Named(s, k)
  {
    if Named(s, k) && k !in KeysOf(s, t) { NamedAfter(s, t, k); }
    if Named(s', k) { NamedByRows(s', WithoutMessages(s, t), k); }
    if Named(WithoutMessages(s, t), k) { NamedByRows(WithoutMessages(s, t), s', k); }
  }

  /** The row is as it was, but that a parent which was a message of one of the threads may be forgotten. */
  predicate SameBut(s: Store, m: Message, m': Message, ts: set<Name>) {
    && m'.thread == m.thread && m'.rawKey == m.rawKey
    && (m'.parent == m.parent
        || (m'.parent.None? && m.parent.value in s.messages && s.messages[m.parent.value].thread in ts))
  }

  /** Deleting one thread touches no row of another, but for the parents it takes from replies, and none of its objects
      unless the two share a key. */
  lemma OtherThreadsAreUntouched(s: Store, t: Name, u: Name, stop: Stop)
    requires Possible(s, t, stop) && t != u && Clipped(KeysOf(s, t)) !! KeysOf(s, u)
    ensures var s' := After(s, t, stop);
            && KeysOf(s', u) == KeysOf(s, u) && MessagesOf(s', u) == MessagesOf(s, u)
            && (forall m :: m in MessagesOf(s, u) ==> SameBut(s, s.messages[m], s'.messages[m], {t}))
            && (forall f: (Name, Name) :: InThread(s, f.0, u) ==> (f in s'.forwards <==> f in s.forwards))
            && (u in s'.threads <==> u in s.threads)
            && s'.objects * KeysOf(s, u) == s.objects * KeysOf(s, u)
  {
    var s' := After(s, t, stop);
    assert MessagesOf(s', u) == MessagesOf(s, u);
    RawKeysStay(s, s', u);
    AttachmentKeysStay(s, s', u);
  }

  /** The rows of u are the same in both states. */
  predicate SameRows(s: Store, s': Store, u: Name) {
    && (forall m :: m in s'.messages ==>
          m in s.messages && s'.messages[m].thread == s.messages[m].thread && s'.messages[m].rawKey == s.messages[m].rawKey)
    && (forall m :: m in s.messages && s.messages[m].thread == u ==> m in s'.messages)
    && (forall a :: a in s'.attachments ==> a in s.attachments && s'.attachments[a] == s.attachments[a])
    && (forall a :: a in s.attachments && AttachedTo(s, a, u) ==> a in s'.attachments)
  }

  lemma RawKeysStay(s: Store, s': Store, u: Name)
    requires SameRows(s, s', u)
    ensures RawKeys(s', u) == RawKeys(s, u)
  {
  }

  lemma AttachmentKeysStay(s: Store, s': Store, u: Name)
    requires SameRows(s, s', u)
    ensures AttachmentKeys(s', u) == AttachmentKeys(s, u)
  {
  }

  // ---------------------------------------------------------------- what a failed deletion has changed

  predicate NoEventsOf(s: Store, cleared: set<Name>) {
    forall e :: e in s.events && s.events[e].Some? ==> s.events[e].value !in cleared
  }

  /** No row had been deleted when deletion stopped. */
  predicate NoRowDeleted(s: Store, t: Name, stop: Stop) {
    match stop
    case InObjects(_) => true
    case InEvents(cleared) => NoEventsOf(s, cleared)
    case BeforeThread => MessagesOf(s, t) == {}
    case Completes => MessagesOf(s, t) == {} && t !in s.threads
  }

  /** Nor had an object. */
  predicate NothingDeleted(s: Store, t: Name, stop: Stop) {
    NoRowDeleted(s, t, stop) && (if stop.InObjects? then stop.removed else Clipped(KeysOf(s, t))) !! s.objects
  }

  /** A thread remains fully intact if and only if nothing had been there to delete before the stop. */
  lemma IntactIffNothingDeleted(s: Store, t: Name, stop: Stop)
    ensures After(s, t, stop) == s <==> NothingDeleted(s, t, stop)
  {
    if NothingDeleted(s, t, stop) {
      assert EventsWithout(s.events, {}) == s.events;
      assert s.objects - Clipped(KeysOf(s, t)) == s.objects || stop.InObjects?;
      if stop.BeforeThread? || stop.Completes? { NoMessagesToDelete(s, t); assert WithoutEvents(WithoutObjects(s, t), {}) == s; }
      if stop.InObjects? { assert s.objects - stop.removed == s.objects; }
      assert stop.InEvents? ==> EventsWithout(s.events, stop.cleared) == s.events;
    } else {
      DeletedIsSeen(s, t, stop);
    }
  }

  lemma NoMessagesToDelete(s: Store, t: Name)
    requires MessagesOf(s, t) == {}
    ensures WithoutMessages(s, t) == s
  {
    assert forall m :: m in s.messages ==> m !in MessagesOf(s, t);
    assert RepliesWithout(s, t) == s.messages && AttachmentsWithout(s, t) == s.attachments && ForwardsWithout(s, t) == s.forwards;
  }

  lemma DeletedIsSeen(s: Store, t: Name, stop: Stop)
    requires !NothingDeleted(s, t, stop)
    ensures After(s, t, stop) != s
  {
  }

  /** The rows of both stores remain as they were if and only if deletion stopped in the objects, or found no row. */
  lemma RowsIntactIff(s: Store, t: Name, stop: Stop)
    ensures After(s, t, stop).(objects := s.objects) == s <==> NoRowDeleted(s, t, stop)
  {
    RowsAloneDecide(s, t, stop);
    IntactIffNothingDeleted(s.(objects := {}), t, stop);
  }

  lemma RowsAloneDecide(s: Store, t: Name, stop: Stop)
    ensures var bare := s.(objects := {});
            MessagesOf(bare, t) == MessagesOf(s, t) && After(bare, t, stop) == After(s, t, stop).(objects := {})
  {
    var bare := s.(objects := {});
    assert MessagesOf(bare, t) == MessagesOf(s, t);
    var cleared, clearedBare := WithoutEvents(WithoutObjects(s, t), MessagesOf(s, t)), WithoutEvents(WithoutObjects(bare, t), MessagesOf(bare, t));
    assert clearedBare == cleared.(objects := {});
    assert RepliesWithout(clearedBare, t) == RepliesWithout(cleared, t);
    assert AttachmentsWithout(clearedBare, t) == AttachmentsWithout(cleared, t);
    assert ForwardsWithout(clearedBare, t) == ForwardsWithout(cleared, t);
  }

  /** A conversation of 1001 archived messages. */
  function Crowded(): Store {
    Store(map i: int | 0 <= i < 1001 :: [i] := Message([0], Some([i]), None), map[], map[[0] := Thread(false, 0, 0)], map[], map[],
          set i: int | 0 <= i < 1001 :: [i])
  }

  /** What a failing second call for its keys leaves: the rows are all there, a thousand objects are not, although no
      attempt has completed. */
  lemma FailedDeletionIsNotIntact()
    ensures var s, removed := Crowded(), set i: int | 0 <= i < 1000 :: [i];
            && Possible(s, [0], InObjects(removed)) && |removed| == 1000
            && After(s, [0], InObjects(removed)).objects == {[1000]}
            && After(s, [0], InObjects(removed)) == s.(objects := {[1000]})
  {
    var s, removed := Crowded(), set i: int | 0 <= i < 1000 :: [i];
    Thousand(1000);
    forall i: int | 0 <= i < 1000 ensures [i] in Clipped(KeysOf(s, [0])) {
      assert [i] in s.messages && s.messages[[i]].rawKey.value == [i];
      assert [i] in RawKeys(s, [0]) && Clip([i]) == [i];
    }
    assert s.objects - removed == {[1000]};
  }

  lemma {:induction false} Thousand(n: nat)
    ensures |set i: int | 0 <= i < n :: [i]| == n
  {
    if n > 0 {
      Thousand(n - 1);
      assert (set i: int | 0 <= i < n :: [i]) == (set i: int | 0 <= i < n - 1 :: [i]) + {[n - 1]};
    }
  }

  // ---------------------------------------------------------------- retrying

  /** Any number of attempts, each stopping wherever it may. */
  function Attempts(s: Store, t: Name, stops: seq<Stop>): Store
    decreases |stops|
  {
    if stops == [] then s
    else Attempts(if Possible(s, t, stops[0]) then After(s, t, stops[0]) else s, t, stops[1..])
  }

  /** Nothing of the thread is left: no row, and no object that it named in state `s`. */
  predicate Gone(s: Store, s': Store, t: Name) {
    && t !in s'.threads && MessagesOf(s', t) == {} && KeysOf(s', t) == {}
    && s'.objects * KeysOf(s, t) == {}
    && (forall e :: e in s'.events && s'.events[e].Some? ==> s'.events[e].value !in MessagesOf(s, t))
    && (forall f: (Name, Name) :: f in s'.forwards ==> f.0 !in MessagesOf(s, t))
  }

  /** Whatever is still there of what the thread named is still named by it, and so are its events and attempts. */
  predicate Recoverable(s: Store, s': Store, t: Name) {
    && s'.objects * KeysOf(s, t) <= KeysOf(s', t)
    && KeysOf(s', t) <= KeysOf(s, t)
    && (forall e :: e in s'.events && s'.events[e].Some? && s'.events[e].value in MessagesOf(s, t) ==> s'.events[e].value in MessagesOf(s', t))
    && (forall f: (Name, Name) :: f in s'.forwards && f.0 in MessagesOf(s, t) ==> f.0 in MessagesOf(s', t))
  }

  lemma NothingNamedWithout(s: Store, t: Name)
    ensures KeysOf(WithoutMessages(s, t), t) == {} && MessagesOf(WithoutMessages(s, t), t) == {}
  {
  }

  lemma KeysDependOnRows(s: Store, s': Store, t: Name)
    requires s.messages == s'.messages && s.attachments == s'.attachments
    ensures KeysOf(s, t) == KeysOf(s', t) && MessagesOf(s, t) == MessagesOf(s', t)
  {
  }

  lemma AttemptIsRecoverable(s: Store, s': Store, t: Name, stop: Stop)
    requires KeysFit(s, t) && Recoverable(s, s', t) && Possible(s', t, stop)
    ensures Recoverable(s, After(s', t, stop), t)
    ensures stop.Completes? ==> Gone(s, After(s', t, stop), t)
  {
    var r := After(s', t, stop);
    FittingKeysAreNotClipped(s', t);
    if stop.InObjects? || stop.InEvents? {
      KeysDependOnRows(s', r, t);
    } else {
      var cleared := WithoutEvents(WithoutObjects(s', t), MessagesOf(s', t));
      KeysDependOnRows(s', cleared, t);
      NothingNamedWithout(cleared, t);
      KeysDependOnRows(WithoutMessages(cleared, t), r, t);
    }
  }

  lemma {:induction false} AttemptsAreRecoverable(s: Store, s': Store, t: Name, stops: seq<Stop>)
    requires KeysFit(s, t) && Recoverable(s, s', t)
    ensures Recoverable(s, Attempts(s', t, stops), t)
    decreases |stops|
  {
    if stops != [] {
      if Possible(s', t, stops[0]) { AttemptIsRecoverable(s, s', t, stops[0]); }
      AttemptsAreRecoverable(s, if Possible(s', t, stops[0]) then After(s', t, stops[0]) else s', t, stops[1..]);
    }
  }

  /** However often deletion was interrupted, and wherever, one complete attempt leaves neither rows nor objects. */
  lemma RetryFinishes(s: Store, t: Name, stops: seq<Stop>)
    requires KeysFit(s, t)
    ensures Gone(s, After(Attempts(s, t, stops), t, Completes), t)
  {
    AttemptsAreRecoverable(s, s, t, stops);
    AttemptIsRecoverable(s, Attempts(s, t, stops), t, Completes);
  }
}
