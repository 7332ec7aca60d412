/**
 * Store verification: an administrator approves a store's identity and licence data, and any later change of that data
 * sends the store back to be approved again. With one gap, which is stated exactly.
 */
module Stores {
  import opened Common

  datatype StoreStatus = Waiting | Active | Inactive | Banned

  /** The verified data: text fields, dates and document images, in the order of the source's field lists. */
  datatype Identity = Identity(texts: seq<Option<string>>, dates: seq<Option<Instant>>, images: seq<Option<string>>)

  const TEXT_FIELDS := 10
  const DATE_FIELDS := 4
  const IMAGES := 3

  predicate WellFormed(data: Identity) {
    |data.texts| == TEXT_FIELDS && |data.dates| == DATE_FIELDS && |data.images| == IMAGES
  }

  /** `approvedData` records the data at the last approval; no handler reads it. */
  datatype Store = Store(owner: UserId, status: StoreStatus, data: Identity, approvedBy: Option<UserId>,
                         approvedData: Option<Identity>)

  /** What a request says about one field. */
  datatype Incoming<T> = Absent | Null | Given(value: T)

  /** The verification part of an update request. */
  datatype Change = Change(texts: seq<Incoming<string>>, dates: seq<Incoming<Instant>>)

  predicate WellFormedChange(change: Change) {
    |change.texts| == TEXT_FIELDS && |change.dates| == DATE_FIELDS
  }

  // ----- Detecting a change ----------------------------------------------------------------------------------

  /** A text counts as changed when it is sent as null or with another value. */
  predicate TextChanged(incoming: Incoming<string>, stored: Option<string>) {
    incoming.Null? || (incoming.Given? && stored != Some(incoming.value))
  }

  /** A date sent as null is compared as the epoch; a missing stored date equals nothing. */
  predicate DateChanged(incoming: Incoming<Instant>, stored: Option<Instant>) {
    !incoming.Absent? && stored != Some(if incoming.Null? then 0 else incoming.value)
  }

  predicate HasVerificationChange(change: Change, data: Identity)
    requires WellFormed(data) && WellFormedChange(change)
  {
    || (exists i :: 0 <= i < TEXT_FIELDS && TextChanged(change.texts[i], data.texts[i]))
    || (exists i :: 0 <= i < DATE_FIELDS && DateChanged(change.dates[i], data.dates[i]))
  }

  function Taken<T>(incoming: Incoming<T>, stored: Option<T>): Option<T> {
    match incoming
    case Absent => stored
    case Null => None
    case Given(value) => Some(value)
  }

  function Written(change: Change, data: Identity): (r: Identity)
    requires WellFormed(data) && WellFormedChange(change)
    ensures WellFormed(r)
  {
    Identity(seq(TEXT_FIELDS, i requires 0 <= i < TEXT_FIELDS => Taken(change.texts[i], data.texts[i])),
             seq(DATE_FIELDS, i requires 0 <= i < DATE_FIELDS => Taken(change.dates[i], data.dates[i])),
             data.images)
  }

  // ----- Steps -----------------------------------------------------------------------------------------------

  datatype Step =
      // accepted stands for the checks on the name and on the deposit setting
    | Update(user: UserId, change: Change, accepted: bool)
    | Upload(user: UserId, image: nat, url: string)
    | Approve(admin: UserId)
    | Reject(reasonGiven: bool)
    | Lock(reasonGiven: bool)
    | Unlock

  /** The owner's handlers refuse everyone else, and everyone while the store is banned. */
  predicate MayManage(s: Store, user: UserId) {
    s.owner == user && s.status != Banned
  }

  /** New data under the status it leads to: an active or inactive store has to be approved again. */
  function Reverified(s: Store, data: Identity): Store {
    if s.status == Active || s.status == Inactive then s.(data := data, status := Waiting, approvedBy := None)
    else s.(data := data)
  }

  function Apply(s: Store, step: Step): Option<Store>
    requires WellFormed(s.data)
  {
    match step
    case Update(user, change, accepted) =>
      if !MayManage(s, user) || !accepted || !WellFormedChange(change) then None
      else if HasVerificationChange(change, s.data) then Some(Reverified(s, Written(change, s.data)))
      else Some(s.(data := Written(change, s.data)))
    case Upload(user, image, url) =>
      if !MayManage(s, user) || image >= IMAGES then None
      else Some(Reverified(s, s.data.(images := s.data.images[image := Some(url)])))
    case Approve(admin) =>
      if (s.status != Waiting && s.status != Inactive) || s.owner == admin then None
      else Some(s.(status := Active, approvedBy := Some(admin), approvedData := Some(s.data)))
    case Reject(reasonGiven) =>
      if !reasonGiven || (s.status != Waiting && s.status != Inactive) then None else Some(s.(status := Inactive))
    case Lock(reasonGiven) =>
      if !reasonGiven || s.status != Active then None else Some(s.(status := Banned))
    case Unlock =>
      if s.status != Banned then None else Some(s.(status := Active))
  }

  function NewStore(owner: UserId, data: Identity): Store {
    Store(owner, Waiting, data, None, None)
  }

  function Run(s: Store, steps: seq<Step>): (r: Option<Store>)
    requires WellFormed(s.data)
    ensures r.Some? ==> WellFormed(r.value.data)
  {
    if steps == [] then Some(s)
    else
      var before := Run(s, steps[..|steps| - 1]);
      if before.None? then None else Apply(before.value, steps[|steps| - 1])
  }

  // ----- When a change goes unnoticed ------------------------------------------------------------------------

  /** A date is cleared that is stored as the epoch, 1 January 1970. */
  predicate ClearsEpoch(change: Change, data: Identity)
    requires WellFormed(data) && WellFormedChange(change)
  {
    exists i :: 0 <= i < DATE_FIELDS && change.dates[i].Null? && data.dates[i] == Some(0)
  }

  /** An update changes the data without noticing exactly when it clears an epoch date and changes nothing else. */
  lemma UnnoticedChange(change: Change, data: Identity)
    requires WellFormed(data) && WellFormedChange(change)
    ensures (!HasVerificationChange(change, data) && Written(change, data) != data)
            <==> (!HasVerificationChange(change, data) && ClearsEpoch(change, data))
  {
    if !HasVerificationChange(change, data) {
      if ClearsEpoch(change, data) {
        var i :| 0 <= i < DATE_FIELDS && change.dates[i].Null? && data.dates[i] == Some(0);
        assert Written(change, data).dates[i] == None;
      } else {
        forall i | 0 <= i < TEXT_FIELDS ensures Written(change, data).texts[i] == data.texts[i] {
          assert !TextChanged(change.texts[i], data.texts[i]);
        }
        forall i | 0 <= i < DATE_FIELDS ensures Written(change, data).dates[i] == data.dates[i] {
          assert !DateChanged(change.dates[i], data.dates[i]);
        }
        assert Written(change, data).texts == data.texts && Written(change, data).dates == data.dates;
      }
    }
  }

  // ----- When nothing has changed ----------------------------------------------------------------------------

  /** What is sent for a field, if anything, is what is stored there. */
  predicate Resends<T(==)>(incoming: Incoming<T>, stored: Option<T>) {
    match incoming
    case Absent => true
    case Null => stored == None
    case Given(value) => stored == Some(value)
  }

  ghost predicate ResendsAll(change: Change, data: Identity)
    requires WellFormed(data) && WellFormedChange(change)
  {
    && (forall i :: 0 <= i < TEXT_FIELDS ==> Resends(change.texts[i], data.texts[i]))
    && (forall i :: 0 <= i < DATE_FIELDS ==> Resends(change.dates[i], data.dates[i]))
  }

  predicate SendsNull(change: Change) {
    || (exists i :: 0 <= i < |change.texts| && change.texts[i].Null?)
    || (exists i :: 0 <= i < |change.dates| && change.dates[i].Null?)
  }

  lemma ResendingWritesNothing(change: Change, data: Identity)
    requires WellFormed(data) && WellFormedChange(change)
    ensures Written(change, data) == data <==> ResendsAll(change, data)
  {
    var written := Written(change, data);
    assert written == data <==> written.texts == data.texts && written.dates == data.dates;
    forall i | 0 <= i < TEXT_FIELDS ensures written.texts[i] == data.texts[i] <==> Resends(change.texts[i], data.texts[i]) {
    }
    forall i | 0 <= i < DATE_FIELDS ensures written.dates[i] == data.dates[i] <==> Resends(change.dates[i], data.dates[i]) {
    }
  }

  /**
   * Sending the stored values again leaves the store as it is, with its status and its approval, exactly when nothing is
   * sent as null or no approval is at stake: a null counts as a change even where nothing is stored.
   */
  lemma ResendingIsHarmlessExactly(s: Store, user: UserId, change: Change)
    requires WellFormed(s.data) && WellFormedChange(change) && ResendsAll(change, s.data)
    requires s.owner == user && s.status != Banned
    ensures Apply(s, Update(user, change, true)).Some?
    ensures Apply(s, Update(user, change, true)).value
         == if SendsNull(change) && (s.status == Active || s.status == Inactive) then s.(status := Waiting, approvedBy := None) else s
  {
    ResendingWritesNothing(change, s.data);
    if i :| 0 <= i < TEXT_FIELDS && change.texts[i].Null? {
      assert TextChanged(change.texts[i], s.data.texts[i]);
    } else if i :| 0 <= i < DATE_FIELDS && change.dates[i].Null? {
      assert Resends(change.dates[i], s.data.dates[i]);
      assert DateChanged(change.dates[i], s.data.dates[i]);
    } else {
      forall i | 0 <= i < TEXT_FIELDS ensures !TextChanged(change.texts[i], s.data.texts[i]) {
        assert Resends(change.texts[i], s.data.texts[i]);
      }
      forall i | 0 <= i < DATE_FIELDS ensures !DateChanged(change.dates[i], s.data.dates[i]) {
        assert Resends(change.dates[i], s.data.dates[i]);
      }
    }
  }

  // ----- What an update makes of the rows --------------------------------------------------------------------

  /** A field is sent with another value than the stored one, or as null: except for the date that null reads as. */
  predicate IsNoticed(change: Change, data: Identity)
    requires WellFormed(data) && WellFormedChange(change)
  {
    || (exists i :: 0 <= i < 10 && change.texts[i].Given? && data.texts[i] != Some(change.texts[i].value))
    || (exists i :: 0 <= i < 4 && change.dates[i].Given? && data.dates[i] != Some(change.dates[i].value))
    || (exists i :: 0 <= i < 10 && change.texts[i] == Null)
    || (exists i :: 0 <= i < 4 && change.dates[i] == Null && data.dates[i] != Some(0))
  }

  predicate IsStored<T(==)>(incoming: Incoming<T>, stored: Option<T>, stored': Option<T>) {
    && (incoming.Given? ==> stored' == Some(incoming.value))
    && (incoming.Null? ==> stored' == None)
    && (incoming.Absent? ==> stored' == stored)
  }

  /** The data sent is stored, and nothing else changes. */
  ghost predicate IsUpdated(change: Change, data: Identity, data': Identity)
    requires WellFormed(data) && WellFormedChange(change)
  {
    && WellFormed(data') && data'.images == data.images
    && (forall i :: 0 <= i < 10 ==> IsStored(change.texts[i], data.texts[i], data'.texts[i]))
    && (forall i :: 0 <= i < 4 ==> IsStored(change.dates[i], data.dates[i], data'.dates[i]))
  }

  lemma NoticedIs(change: Change, data: Identity)
    requires WellFormed(data) && WellFormedChange(change)
    ensures HasVerificationChange(change, data) <==> IsNoticed(change, data)
  {
    forall i | 0 <= i < TEXT_FIELDS
      ensures TextChanged(change.texts[i], data.texts[i])
         <==> change.texts[i] == Null || (change.texts[i].Given? && data.texts[i] != Some(change.texts[i].value))
    {
    }
    if IsNoticed(change, data) {
      if i :| 0 <= i < 10 && TextChanged(change.texts[i], data.texts[i]) {
      } else {
        var i :| 0 <= i < 4 && change.dates[i] != Absent && DateChanged(change.dates[i], data.dates[i]);
      }
    }
  }

  // ----- Verification is not stale ---------------------------------------------------------------------------

  /** A store open to the public, or banned, has the data that someone other than its owner approved. */
  ghost predicate Verified(s: Store) {
    s.status in {Active, Banned} ==>
      s.approvedData == Some(s.data) && s.approvedBy.Some? && s.approvedBy.value != s.owner
  }

  /** The one step that goes unnoticed: clearing an epoch date of an active store, and nothing else. */
  predicate SlipsThrough(s: Store, step: Step)
    requires WellFormed(s.data)
  {
    && step.Update? && WellFormedChange(step.change) && s.status == Active
    && !HasVerificationChange(step.change, s.data) && ClearsEpoch(step.change, s.data)
  }

  /** Every step keeps verification except exactly that one. */
  lemma StepKeepsVerification(s: Store, step: Step, s': Store)
    requires WellFormed(s.data) && Verified(s) && Apply(s, step) == Some(s')
    ensures WellFormed(s'.data)
    ensures Verified(s') <==> !SlipsThrough(s, step)
  {
    hide HasVerificationChange, ClearsEpoch, Written;
    if step.Update? {
      UnnoticedChange(step.change, s.data);
    }
  }

  /** What a step, if it is taken at all, does to verification. */
  lemma KeepsVerification(s: Store, step: Step)
    requires WellFormed(s.data) && Verified(s)
    ensures var s' := Apply(s, step);
            s'.Some? ==> WellFormed(s'.value.data) && (Verified(s'.value) <==> !SlipsThrough(s, step))
  {
    hide Apply, SlipsThrough;
    if Apply(s, step).Some? {
      StepKeepsVerification(s, step, Apply(s, step).value);
    }
  }

  ghost predicate NothingSlips(s: Store, steps: seq<Step>)
    requires WellFormed(s.data)
  {
    steps != [] ==>
      && NothingSlips(s, steps[..|steps| - 1])
      && (var before := Run(s, steps[..|steps| - 1]); before.Some? ==> !SlipsThrough(before.value, steps[|steps| - 1]))
  }

  /**
   * From creation on, through any run of owner and administrator steps none of which clears an epoch date unnoticed:
   * an active or banned store has exactly the data of its last approval, and was not approved by its owner.
   */
  lemma {:induction false} VerificationIsNeverStale(owner: UserId, data: Identity, steps: seq<Step>)
    requires WellFormed(data) && Run(NewStore(owner, data), steps).Some? && NothingSlips(NewStore(owner, data), steps)
    ensures Verified(Run(NewStore(owner, data), steps).value)
  {
    hide Apply, SlipsThrough;
    if steps != [] {
      var n := |steps| - 1;
      VerificationIsNeverStale(owner, data, steps[..n]);
      StepKeepsVerification(Run(NewStore(owner, data), steps[..n]).value, steps[n], Run(NewStore(owner, data), steps).value);
    }
  }

  /** Without that hypothesis: born on 1 January 1970, approved, and then the date of birth is cleared. */
  lemma ClearedEpochStaysActive(owner: UserId, admin: UserId) returns (data: Identity, steps: seq<Step>)
    requires owner != admin
    ensures WellFormed(data) && Run(NewStore(owner, data), steps).Some?
    ensures var s := Run(NewStore(owner, data), steps).value;
            s.status == Active && s.approvedData.Some? && s.approvedData.value != s.data
  {
    data := Identity(seq(TEXT_FIELDS, i => None), [Some(0), None, None, None], seq(IMAGES, i => None));
    var change := Change(seq(TEXT_FIELDS, i => Absent), [Null, Absent, Absent, Absent]);
    var first, second := Approve(admin), Update(owner, change, true);
    steps := [first, second];
    var s := NewStore(owner, data);
    var approved := s.(status := Active, approvedBy := Some(admin), approvedData := Some(data));
    assert steps[..1] == [first] && [first][..0] == [];
    assert Run(s, [first]) == Some(approved);
    assert change.dates[0].Null? && data.dates[0] == Some(0);
    UnnoticedChange(change, data);
    assert Written(change, data).dates[0] == None;
    assert !HasVerificationChange(change, data);
  }

  // ----- The services ----------------------------------------------------------------------------------------

  class StoreService {
    var store: Store

    /** What is public or banned is what someone other than the owner approved. */
    ghost predicate Valid()
      reads this
    {
      WellFormed(store.data) && Verified(store)
    }

    constructor (owner: UserId, data: Identity)
      requires WellFormed(data)
      ensures Valid() && store == NewStore(owner, data) == Store(owner, Waiting, data, None, None)
    {
      store := NewStore(owner, data);
    }

    /** `hasVerificationChange`: the text fields, then the dates. */
    method DetectChange(change: Change) returns (changed: bool)
      requires WellFormed(store.data) && WellFormedChange(change)
      ensures changed == HasVerificationChange(change, store.data)
    {
      for i := 0 to TEXT_FIELDS
        invariant forall k :: 0 <= k < i ==> !TextChanged(change.texts[k], store.data.texts[k])
      {
        if change.texts[i].Null? || (change.texts[i].Given? && store.data.texts[i] != Some(change.texts[i].value)) {
          assert TextChanged(change.texts[i], store.data.texts[i]);
          return true;
        }
      }
      for i := 0 to DATE_FIELDS
        invariant forall k :: 0 <= k < i ==> !DateChanged(change.dates[k], store.data.dates[k])
      {
        if !change.dates[i].Absent? {
          var time := if change.dates[i].Null? then 0 else change.dates[i].value;
          if store.data.dates[i] != Some(time) {
            assert DateChanged(change.dates[i], store.data.dates[i]);
            return true;
          }
        }
      }
      changed := false;
    }

    method UpdateStore(user: UserId, change: Change, accepted: bool) returns (ok: bool)
      requires Valid() && WellFormedChange(change)
      modifies this
      ensures Valid() <==> !(ok && SlipsThrough(old(store), Update(user, change, accepted)))
      ensures var done := Apply(old(store), Update(user, change, accepted));
              ok == done.Some? && store == if ok then done.value else old(store)
      ensures ok <==> old(store).owner == user && old(store).status != Banned && accepted
      ensures !ok ==> store == old(store)
      ensures ok ==>
                && IsUpdated(change, old(store).data, store.data)
                && store == if IsNoticed(change, old(store).data) && (old(store).status == Active || old(store).status == Inactive)
                            then old(store).(data := store.data, status := Waiting, approvedBy := None)
                            else old(store).(data := store.data)
    {
      KeepsVerification(store, Update(user, change, accepted));
      NoticedIs(change, store.data);
      if store.owner != user || store.status == Banned || !accepted {
        return false;
      }
      var changed := DetectChange(change);
      var reverify := changed && (store.status == Active || store.status == Inactive);
      store := store.(data := Written(change, store.data));
      if reverify {
        store := store.(status := Waiting, approvedBy := None);
      }
      ok := true;
    }

    method UploadImage(user: UserId, image: nat, url: string) returns (ok: bool)
      requires Valid() && image < IMAGES
      modifies this
      ensures Valid()
      ensures var done := Apply(old(store), Upload(user, image, url));
              ok == done.Some? && store == if ok then done.value else old(store)
      ensures ok <==> old(store).owner == user && old(store).status != Banned
      ensures ok ==>
                var data := Identity(old(store).data.texts, old(store).data.dates, old(store).data.images[image := Some(url)]);
                store == if old(store).status == Waiting then old(store).(data := data)
                         else old(store).(data := data, status := Waiting, approvedBy := None)
    {
      KeepsVerification(store, Upload(user, image, url));
      if store.owner != user || store.status == Banned {
        return false;
      }
      var reverify := store.status == Active || store.status == Inactive;
      store := store.(data := store.data.(images := store.data.images[image := Some(url)]));
      if reverify {
        store := store.(status := Waiting, approvedBy := None);
      }
      ok := true;
    }

    method ApproveStore(admin: UserId) returns (ok: bool)
      requires Valid()
      modifies this
      ensures Valid()
      ensures var done := Apply(old(store), Approve(admin));
              ok == done.Some? && store == if ok then done.value else old(store)
      ensures ok <==> (old(store).status == Waiting || old(store).status == Inactive) && old(store).owner != admin
      ensures ok ==> store == old(store).(status := Active, approvedBy := Some(admin), approvedData := Some(old(store).data))
    {
      KeepsVerification(store, Approve(admin));
      if store.status != Waiting && store.status != Inactive {
        return false;
      }
      if store.owner == admin {
        return false;
      }
      store := store.(status := Active, approvedBy := Some(admin), approvedData := Some(store.data));
      ok := true;
    }

    method RejectStore(reasonGiven: bool) returns (ok: bool)
      requires Valid()
      modifies this
      ensures Valid()
      ensures var done := Apply(old(store), Reject(reasonGiven));
              ok == done.Some? && store == if ok then done.value else old(store)
      ensures ok <==> reasonGiven && (old(store).status == Waiting || old(store).status == Inactive)
      ensures ok ==> store == old(store).(status := Inactive)
    {
      KeepsVerification(store, Reject(reasonGiven));
      if !reasonGiven || (store.status != Waiting && store.status != Inactive) {
        return false;
      }
      store := store.(status := Inactive);
      ok := true;
    }

    method LockStore(reasonGiven: bool) returns (ok: bool)
      requires Valid()
      modifies this
      ensures Valid()
      ensures var done := Apply(old(store), Lock(reasonGiven));
              ok == done.Some? && store == if ok then done.value else old(store)
      ensures ok <==> reasonGiven && old(store).status == Active
      ensures ok ==> store == old(store).(status := Banned)
    {
      KeepsVerification(store, Lock(reasonGiven));
      if !reasonGiven || store.status != Active {
        return false;
      }
      store := store.(status := Banned);
      ok := true;
    }

    method UnlockStore() returns (ok: bool)
      requires Valid()
      modifies this
      ensures Valid()
      ensures var done := Apply(old(store), Unlock);
              ok == done.Some? && store == if ok then done.value else old(store)
      ensures ok <==> old(store).status == Banned
      ensures ok ==> store == old(store).(status := Active)
    {
      KeepsVerification(store, Unlock);
      if store.status != Banned {
        return false;
      }
      store := store.(status := Active);
      ok := true;
    }
  }
}
