/**
 * The advisory editing lock of a dataset (`Dataset.lock` / `Dataset.unlock`).
 *
 * `lock` re-reads the persisted record, refuses if it is locked, writes
 * `locked = true` with a fresh token in `locked_at`, then reads the record a
 * second time and refuses if the token read back is not its own. Other
 * processes may write or delete the record between the write and the second
 * read, so the model takes what the second read finds as a parameter
 * (`reread`, `None` when the record is gone).
 */
module Locking {
  import opened Basics
  import opened Entities

  /** The instance after the first read: the persisted lock fields copied in. */
  function Refreshed(self: Dataset, from: Dataset): Dataset {
    self.(locked := from.locked, lockedAt := from.lockedAt)
  }

  /** The record `lock` writes (line 125): the whole instance, locked with `token`. */
  function LockWrite(s: State, token: Timestamp, now: Timestamp): (w: Dataset)
    requires s.stored.Some?
    ensures w.locked && w.lockedAt == Some(token)
  {
    Save(Refreshed(s.self, s.stored.value).(locked := true, lockedAt := Some(token)), now)
  }

  /** `Dataset.lock`, lines 107-134. */
  function Lock(s: State, token: Timestamp, reread: Option<Dataset>, now: Timestamp): (o: Outcome)
    ensures o.after.catalog == s.catalog && o.after.effects == s.effects
    ensures s.stored.None? ==> o == Outcome(s, Some(DoesNotExist))
    ensures s.stored.Some? && s.stored.value.locked ==>
              o.raised == Some(DatasetLocked) && o.after.stored == s.stored
    ensures s.stored.Some? && !s.stored.value.locked ==>
              && o.after.stored == reread
              && (o.raised.None? <==> reread.Some? && reread.value.lockedAt == Some(token))
              && (reread.None? ==> o.raised == Some(DoesNotExist) &&
                                   o.after.self.locked && o.after.self.lockedAt == Some(token))
              && (reread.Some? && o.raised.Some? ==> o.raised == Some(DatasetLocked))
    ensures o.raised.None? ==>
              && reread.Some? && o.after.stored == reread
              && o.after.self.locked == reread.value.locked
              && o.after.self.lockedAt == Some(token)
    ensures o.after.self.(locked := s.self.locked, lockedAt := s.self.lockedAt,
                          creationDate := s.self.creationDate) == s.self
  {
    if s.stored.None? then Outcome(s, Some(DoesNotExist))
    else
      var before := s.stored.value;
      var self1 := Refreshed(s.self, before);
      if self1.locked then
        Outcome(s.(self := self1), Some(DatasetLocked))
      else
        var written := LockWrite(s, token, now);
        if reread.None? then
          Outcome(s.(self := written, stored := None), Some(DoesNotExist))
        else
          var self2 := Refreshed(written, reread.value);
          var s2 := s.(self := self2, stored := reread);
          if reread.value.lockedAt != Some(token) then Outcome(s2, Some(DatasetLocked))
          else Outcome(s2, None)
  }

  /** With no other writer between the write and the second read, `lock`
      succeeds on an unlocked record and leaves it locked with the new token;
      every other field is the instance's own. */
  lemma LockWithoutInterference(s: State, token: Timestamp, now: Timestamp)
    requires s.stored.Some? && !s.stored.value.locked
    ensures var o := Lock(s, token, Some(LockWrite(s, token, now)), now);
            && o.raised.None?
            && o.after.stored == Some(o.after.self)
            && o.after.self.locked
            && o.after.self.lockedAt == Some(token)
            && o.after.self.(locked := s.self.locked, lockedAt := s.self.lockedAt,
                             creationDate := s.self.creationDate) == s.self
  {
  }

  /** `Dataset.unlock`, lines 136-143: clears `locked` and saves the instance.
      The stray `lock_id` attribute is never persisted and `locked_at` is kept. */
  function Unlock(s: State, now: Timestamp): (r: State)
    ensures r.stored == Some(r.self)
    ensures !r.self.locked
    ensures r.self.lockedAt == s.self.lockedAt
    ensures r.self.(locked := s.self.locked, creationDate := s.self.creationDate) == s.self
    ensures r.catalog == s.catalog && r.effects == s.effects
  {
    Persist(s.(self := s.self.(locked := false)), now)
  }

  /** Unlocking twice is unlocking once, whatever the clock reads the second time. */
  lemma UnlockIdempotent(s: State, now: Timestamp, later: Timestamp)
    ensures Unlock(Unlock(s, now), later) == Unlock(s, now)
  {
  }

  /** Two locks in a row: the second is refused without writing. */
  lemma SecondLockRefused(s: State, token: Timestamp, now: Timestamp,
                          token2: Timestamp, reread2: Option<Dataset>, now2: Timestamp)
    requires s.stored.Some? && !s.stored.value.locked
    ensures var first := Lock(s, token, Some(LockWrite(s, token, now)), now);
            var second := Lock(first.after, token2, reread2, now2);
            && first.raised.None?
            && second.raised == Some(DatasetLocked)
            && second.after.stored == first.after.stored
  {
  }

  /** Lock, unlock, lock again: the second lock succeeds when nobody interferes. */
  lemma LockAfterUnlock(s: State, token: Timestamp, now: Timestamp, token2: Timestamp, now2: Timestamp)
    requires s.stored.Some? && !s.stored.value.locked
    ensures var first := Lock(s, token, Some(LockWrite(s, token, now)), now);
            var released := Unlock(first.after, now);
            var second := Lock(released, token2, Some(LockWrite(released, token2, now2)), now2);
            && first.raised.None?
            && released.stored.Some? && !released.stored.value.locked
            && second.raised.None?
            && second.after.self.locked && second.after.self.lockedAt == Some(token2)
  {
  }
}
