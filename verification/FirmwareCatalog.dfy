/**
 * The firmware records of products: internal/firmware/metadata.go, and the choice of
 * the firmware a device should run: internal/firmware/selection.go.
 */
module FirmwareCatalog {
  import opened Basics
  import ChunkManifest
  import FlashJobs
  import Sorting

  datatype ProductFirmware = ProductFirmware(
    id: string, productId: string, version: int,
    title: string, description: string, filename: string, contentType: string, releaseNotes: string,
    binary: Binary, released: bool, isDefault: bool, isCurrent: bool, createdAt: int, updatedAt: int)

  /** What a record says of its binary: where it is, and the size and checksum it had when it was written. */
  datatype Binary = Binary(path: string, size: nat, sha256: string)

  datatype Upload = Upload(
    productId: string, version: int,
    title: string, description: string, filename: string, contentType: string, releaseNotes: string,
    contents: Bytes, released: bool, isDefault: bool, isCurrent: bool)

  datatype Update = Update(
    version: Option<int>,
    title: Option<string>, description: Option<string>, filename: Option<string>,
    contentType: Option<string>, releaseNotes: Option<string>,
    contents: Option<Bytes>, released: Option<bool>, isDefault: Option<bool>, isCurrent: Option<bool>)

  datatype Error = NotFound | Conflict | StoreFailed | BinaryFailed

  type Store = map<string, ProductFirmware>

  // ---------------------------------------------------------------- effects

  /**
   * Where a stored record comes from: it was loaded `loaded` effects into the run, and
   * its binary is the one written by effect `wrote`, or else as it was loaded.
   */
  datatype Basis = Basis(loaded: nat, wrote: Option<nat>)

  /**
   * What one operation did to the records and the files. A firmware is designated when
   * the flags of its product were cleared and it was then stored with both; if the
   * second part failed, the flags were only cleared. When operations run side by side,
   * other effects may come between the two parts, which then are `Cleared` and
   * `Marked`, and a record may be written back as it was when it was loaded.
   */
  datatype Effect =
    | Unchanged
    | Cleared(productId: string, now: int)
    | Marked(firmware: ProductFirmware, basis: Basis)
    | Designated(firmware: ProductFirmware, now: int, basis: Basis)
    | Saved(firmware: ProductFirmware, basis: Basis)
    | WrittenBack(firmware: ProductFirmware, basis: Basis)
    | Removed(id: string)
    | BinaryWritten(id: string, binary: Binary, contents: Bytes)
    | FileRemoved(id: string, path: string)

  function ClearFlags(store: Store, productId: string, now: int): Store {
    map id | id in store ::
      if store[id].productId == productId && store[id].isCurrent
      then store[id].(isCurrent := false, isDefault := false, updatedAt := now) else store[id]
  }

  function Apply(store: Store, effect: Effect): Store {
    match effect
    case Unchanged => store
    case Cleared(productId, now) => ClearFlags(store, productId, now)
    case Marked(firmware, _) => store[firmware.id := firmware]
    case Designated(firmware, now, _) => ClearFlags(store, firmware.productId, now)[firmware.id := firmware]
    case Saved(firmware, _) => store[firmware.id := firmware]
    case WrittenBack(firmware, _) => store[firmware.id := firmware]
    case Removed(id) => store - {id}
    case BinaryWritten(_, _, _) => store
    case FileRemoved(_, _) => store
  }

  predicate MayDesignate(store: Store, firmware: ProductFirmware) {
    && firmware.isCurrent && firmware.isDefault && firmware.released && firmware.version != 0 && firmware.id != ""
    && (firmware.id in store ==> store[firmware.id].productId == firmware.productId)
  }

  /** The effects the operations have: outside a designation flags are only ever taken away. */
  predicate Allowed(store: Store, effect: Effect) {
    match effect
    case Designated(firmware, _, _) => MayDesignate(store, firmware)
    case Marked(firmware, _) => MayDesignate(store, firmware)
    case Saved(firmware, _) =>
      && firmware.version != 0 && firmware.id != ""
      && (if firmware.id in store then
            && store[firmware.id].productId == firmware.productId
            && (firmware.isCurrent ==> store[firmware.id].isCurrent)
            && (firmware.isDefault ==> store[firmware.id].isDefault)
          else !firmware.isCurrent && !firmware.isDefault)
    case WrittenBack(firmware, _) =>
      && firmware.version != 0 && firmware.id != ""
      && (firmware.id in store ==> store[firmware.id].productId == firmware.productId)
    case _ => true
  }

  /** What is written back is the record as it was loaded, edited as it could have been saved then. */
  predicate WasLoaded(history: seq<Effect>, effect: Effect) {
    effect.WrittenBack? ==>
      && effect.basis.loaded <= |history|
      && effect.firmware.id in Execute(history[..effect.basis.loaded])
      && Allowed(Execute(history[..effect.basis.loaded]), Saved(effect.firmware, effect.basis))
  }

  function Execute(history: seq<Effect>): Store {
    if history == [] then map[] else Apply(Execute(history[..|history| - 1]), history[|history| - 1])
  }

  predicate Legal(history: seq<Effect>) {
    forall k :: 0 <= k < |history| ==> Allowed(Execute(history[..k]), history[k]) && WasLoaded(history[..k], history[k])
  }

  /** The effect is a designation of the product, or a part of one. */
  predicate Touches(effect: Effect, productId: string) {
    match effect
    case Cleared(p, _) => p == productId
    case Marked(firmware, _) => firmware.productId == productId
    case Designated(firmware, _, _) => firmware.productId == productId
    case _ => false
  }

  predicate Untouched(history: seq<Effect>, since: nat, productId: string) {
    forall k :: since <= k < |history| ==> !Touches(history[k], productId)
  }

  /** For the product, the latest clear or designation was a clear. */
  predicate ClearedLast(history: seq<Effect>, productId: string) {
    history != [] &&
    match history[|history| - 1]
    case Cleared(p, _) => p == productId || ClearedLast(history[..|history| - 1], productId)
    case Marked(firmware, _) => firmware.productId != productId && ClearedLast(history[..|history| - 1], productId)
    case Designated(firmware, _, _) => firmware.productId != productId && ClearedLast(history[..|history| - 1], productId)
    case _ => ClearedLast(history[..|history| - 1], productId)
  }

  /**
   * Of two designations for one product, one is completed before the other clears for
   * the last time, and no current flag loaded before one is written back after it.
   */
  predicate DesignationsStandAlone(history: seq<Effect>) {
    forall k :: 0 <= k < |history| ==> StandsAlone(history[..k], history[k])
  }

  predicate StandsAlone(history: seq<Effect>, effect: Effect) {
    && (effect.Marked? ==> ClearedLast(history, effect.firmware.productId))
    && (effect.WrittenBack? && effect.firmware.isCurrent ==> Untouched(history, effect.basis.loaded, effect.firmware.productId))
  }

  lemma LegalStep(history: seq<Effect>, effect: Effect)
    requires Legal(history) && DesignationsStandAlone(history) && Allowed(Execute(history), effect)
    requires !effect.Marked? && !effect.WrittenBack?
    ensures Legal(history + [effect]) && DesignationsStandAlone(history + [effect])
    ensures Execute(history + [effect]) == Apply(Execute(history), effect)
  {
    hide Allowed, Apply, Execute, Legal, DesignationsStandAlone;
    assert (history + [effect])[..|history|] == history;
    StillLegal(history, effect);
    StillStandAlone(history, effect);
    ExecuteMore(history, effect);
  }

  lemma ExecuteMore(history: seq<Effect>, effect: Effect)
    ensures Execute(history + [effect]) == Apply(Execute(history), effect)
  {
    hide Apply;
    assert (history + [effect])[..|history|] == history;
  }

  lemma StillLegal(history: seq<Effect>, effect: Effect)
    requires Legal(history) && Allowed(Execute(history), effect) && WasLoaded(history, effect)
    ensures Legal(history + [effect])
  {
    hide Allowed, Execute, WasLoaded;
    var longer := history + [effect];
    assert longer[..|history|] == history;
    forall k | 0 <= k < |longer| ensures Allowed(Execute(longer[..k]), longer[k]) && WasLoaded(longer[..k], longer[k]) {
      if k < |history| {
        assert longer[..k] == history[..k];
      }
    }
  }

  lemma StillStandAlone(history: seq<Effect>, effect: Effect)
    requires DesignationsStandAlone(history) && StandsAlone(history, effect)
    ensures DesignationsStandAlone(history + [effect])
  {
    hide StandsAlone;
    var longer := history + [effect];
    assert longer[..|history|] == history;
    forall k | 0 <= k < |longer| ensures StandsAlone(longer[..k], longer[k]) {
      if k < |history| {
        assert longer[..k] == history[..k];
      }
    }
  }

  // ---------------------------------------------------------------- one current firmware

  predicate KeysAreIds(store: Store) {
    forall id :: id in store ==> store[id].id == id != "" && store[id].version != 0
  }

  predicate OneCurrent(store: Store) {
    forall a, b :: (a in store && b in store && store[a].isCurrent && store[b].isCurrent &&
                    store[a].productId == store[b].productId) ==> a == b
  }

  predicate NoneCurrent(store: Store, productId: string) {
    forall id :: id in store && store[id].productId == productId ==> !store[id].isCurrent
  }

  predicate NoOtherCurrent(store: Store, productId: string, id: string) {
    forall other :: other in store && store[other].productId == productId && store[other].isCurrent ==> other == id
  }

  /**
   * In every state reached with designations for one product standing alone, whatever
   * else is done meanwhile and whatever saves failed, at most one firmware of a
   * product is current.
   */
  lemma {:induction false} EveryRunKeepsOneCurrent(history: seq<Effect>)
    requires Legal(history) && DesignationsStandAlone(history)
    ensures KeysAreIds(Execute(history)) && OneCurrent(Execute(history))
    ensures forall p: string :: ClearedLast(history, p) ==> NoneCurrent(Execute(history), p)
    decreases |history|, 0
  {
    hide Apply, Allowed, KeysAreIds, OneCurrent, NoneCurrent, NoOtherCurrent;
    if history == [] {
      assert KeysAreIds(map[]) && OneCurrent(map[]) by {
        EmptyIsFine();
      }
    } else {
      var before, effect := history[..|history| - 1], history[|history| - 1];
      PrefixesToo(history, |before|);
      EveryRunKeepsOneCurrent(before);
      if effect.WrittenBack? && effect.firmware.isCurrent {
        StillTheOne(before, effect);
      }
      StaysOneCurrent(Execute(before), effect);
      forall p: string | ClearedLast(history, p) ensures NoneCurrent(Execute(history), p) {
        StaysCleared(Execute(before), effect, p);
      }
    }
  }

  /** A current flag is written back only to the firmware that is still the current one. */
  lemma {:induction false} StillTheOne(history: seq<Effect>, effect: Effect)
    requires Legal(history) && DesignationsStandAlone(history)
    requires WasLoaded(history, effect) && StandsAlone(history, effect) && effect.WrittenBack? && effect.firmware.isCurrent
    ensures NoOtherCurrent(Execute(history), effect.firmware.productId, effect.firmware.id)
    ensures !ClearedLast(history, effect.firmware.productId)
    decreases |history|, 1
  {
    hide Execute, Legal, DesignationsStandAlone, ClearedLast;
    var loaded, p := effect.basis.loaded, effect.firmware.productId;
    PrefixesToo(history, loaded);
    EveryRunKeepsOneCurrent(history[..loaded]);
    NoOtherSince(history, loaded, effect.firmware.id, p);
    if ClearedLast(history, p) {
      ClearedBefore(history, loaded, p);
      assert false;
    }
  }

  /** A firmware current at some time stays the only one that can be, until the next designation. */
  lemma {:induction false} NoOtherSince(history: seq<Effect>, since: nat, id: string, productId: string)
    requires Legal(history) && DesignationsStandAlone(history)
    requires since <= |history| && Untouched(history, since, productId)
    requires NoOtherCurrent(Execute(history[..since]), productId, id)
    requires IsCurrent(Execute(history[..since]), productId, id)
    ensures NoOtherCurrent(Execute(history), productId, id)
    decreases |history|, 0
  {
    hide Apply, Allowed, KeysAreIds, OneCurrent, NoneCurrent, NoOtherCurrent, IsCurrent, Legal, DesignationsStandAlone, ClearedLast, WasLoaded;
    if since == |history| {
      assert history[..since] == history;
    } else {
      var before, effect := history[..|history| - 1], history[|history| - 1];
      PrefixesToo(history, |before|);
      assert before[..since] == history[..since];
      NoOtherSince(before, since, id, productId);
      if effect.WrittenBack? && effect.firmware.isCurrent && effect.firmware.productId == productId {
        SameFirmware(before, effect, since, id);
      }
      StaysNoOther(Execute(before), effect, productId, id);
    }
  }

  /** Of two firmwares that were current with no designation since, both are the same. */
  lemma {:induction false} SameFirmware(history: seq<Effect>, effect: Effect, since: nat, id: string)
    requires Legal(history) && DesignationsStandAlone(history)
    requires WasLoaded(history, effect) && StandsAlone(history, effect) && effect.WrittenBack? && effect.firmware.isCurrent
    requires since <= |history| && Untouched(history, since, effect.firmware.productId)
    requires NoOtherCurrent(Execute(history[..since]), effect.firmware.productId, id)
    requires IsCurrent(Execute(history[..since]), effect.firmware.productId, id)
    ensures effect.firmware.id == id
    decreases |history|, 1
  {
    hide Execute, Legal, DesignationsStandAlone, ClearedLast;
    var loaded, p := effect.basis.loaded, effect.firmware.productId;
    PrefixesToo(history, loaded);
    PrefixesToo(history, since);
    if loaded <= since {
      assert history[..since][..loaded] == history[..loaded];
      EveryRunKeepsOneCurrent(history[..loaded]);
      NoOtherSince(history[..since], loaded, effect.firmware.id, p);
    } else {
      assert history[..loaded][..since] == history[..since];
      NoOtherSince(history[..loaded], since, id, p);
    }
  }

  predicate IsCurrent(store: Store, productId: string, id: string) {
    id in store && store[id].productId == productId && store[id].isCurrent
  }

  lemma StaysNoOther(store: Store, effect: Effect, productId: string, id: string)
    requires NoOtherCurrent(store, productId, id) && Allowed(store, effect) && !Touches(effect, productId)
    requires effect.WrittenBack? && effect.firmware.isCurrent && effect.firmware.productId == productId ==> effect.firmware.id == id
    ensures NoOtherCurrent(Apply(store, effect), productId, id)
  {
  }

  lemma {:induction false} ClearedBefore(history: seq<Effect>, since: nat, productId: string)
    requires since <= |history| && Untouched(history, since, productId) && ClearedLast(history, productId)
    ensures ClearedLast(history[..since], productId)
    decreases |history|
  {
    if since == |history| {
      assert history[..since] == history;
    } else {
      assert history[..|history| - 1][..since] == history[..since];
      ClearedBefore(history[..|history| - 1], since, productId);
    }
  }

  lemma PrefixesToo(history: seq<Effect>, n: nat)
    requires Legal(history) && DesignationsStandAlone(history) && n <= |history|
    ensures Legal(history[..n]) && DesignationsStandAlone(history[..n])
    ensures n < |history| ==>
              Allowed(Execute(history[..n]), history[n]) && WasLoaded(history[..n], history[n]) && StandsAlone(history[..n], history[n])
  {
    hide Allowed, Execute, WasLoaded, StandsAlone;
    assert forall k :: 0 <= k <= n ==> history[..n][..k] == history[..k];
  }

  lemma EmptyIsFine()
    ensures KeysAreIds(map[]) && OneCurrent(map[])
  {
  }

  lemma StaysOneCurrent(store: Store, effect: Effect)
    requires KeysAreIds(store) && OneCurrent(store) && Allowed(store, effect)
    requires effect.Marked? ==> NoneCurrent(store, effect.firmware.productId)
    requires effect.WrittenBack? && effect.firmware.isCurrent ==> NoOtherCurrent(store, effect.firmware.productId, effect.firmware.id)
    ensures KeysAreIds(Apply(store, effect)) && OneCurrent(Apply(store, effect))
  {
    if effect.Designated? {
      ClearingLeavesNone(store, effect.firmware.productId, effect.now);
      hide ClearFlags;
      StoringOne(ClearFlags(store, effect.firmware.productId, effect.now), effect.firmware);
    }
  }

  lemma ClearingLeavesNone(store: Store, productId: string, now: int)
    requires KeysAreIds(store) && OneCurrent(store)
    ensures var after := ClearFlags(store, productId, now);
            KeysAreIds(after) && OneCurrent(after) && NoneCurrent(after, productId)
  {
  }

  lemma StoringOne(store: Store, firmware: ProductFirmware)
    requires KeysAreIds(store) && OneCurrent(store) && NoneCurrent(store, firmware.productId)
    requires firmware.id != "" && firmware.version != 0
    ensures KeysAreIds(store[firmware.id := firmware]) && OneCurrent(store[firmware.id := firmware])
  {
  }

  lemma StaysCleared(store: Store, effect: Effect, productId: string)
    requires KeysAreIds(store) && Allowed(store, effect)
    requires (effect.Cleared? && effect.productId == productId) ||
             (NoneCurrent(store, productId) && !Touches(effect, productId))
    requires effect.WrittenBack? && effect.firmware.productId == productId ==> !effect.firmware.isCurrent
    ensures NoneCurrent(Apply(store, effect), productId)
  {
  }

  /**
   * Storing a firmware, marked or written back, leaves one current exactly when it is
   * not current itself or no other firmware of the product is by then.
   */
  lemma StoringKeepsOneCurrentExactly(store: Store, effect: Effect)
    requires KeysAreIds(store) && OneCurrent(store) && Allowed(store, effect) && (effect.Marked? || effect.WrittenBack?)
    ensures OneCurrent(Apply(store, effect))
       <==> (effect.firmware.isCurrent ==> NoOtherCurrent(store, effect.firmware.productId, effect.firmware.id))
  {
    var firmware, after := effect.firmware, Apply(store, effect);
    forall id | id in store && id != firmware.id && store[id].productId == firmware.productId &&
                store[id].isCurrent && firmware.isCurrent
      ensures !OneCurrent(after)
    {
      assert after[id].isCurrent && after[firmware.id].isCurrent;
    }
  }

  /** Two designations that both clear before either marks leave two firmwares current. */
  lemma OverlappingDesignationsLeaveTwo(store: Store, first: ProductFirmware, second: ProductFirmware, now: int)
    requires KeysAreIds(store) && MayDesignate(store, first) && MayDesignate(store, second)
    requires first.id != second.id && first.productId == second.productId
    ensures var cleared := Apply(Apply(store, Cleared(first.productId, now)), Cleared(second.productId, now));
            var marked, again := Marked(first, Basis(0, None)), Marked(second, Basis(0, None));
            && Allowed(cleared, marked) && Allowed(Apply(cleared, marked), again)
            && !OneCurrent(Apply(Apply(cleared, marked), again))
  {
    var cleared := Apply(Apply(store, Cleared(first.productId, now)), Cleared(second.productId, now));
    var after := Apply(Apply(cleared, Marked(first, Basis(0, None))), Marked(second, Basis(0, None)));
    assert after[first.id] == first && after[second.id] == second;
  }

  /**
   * An edit that loads the current firmware before another is designated, and saves it
   * after that, leaves two firmwares current, after every run.
   */
  lemma StaleSaveLeavesTwo(history: seq<Effect>, id: string, other: ProductFirmware, now: int)
    requires Legal(history) && DesignationsStandAlone(history)
    requires id in Execute(history) && Execute(history)[id].isCurrent && Execute(history)[id].productId == other.productId
    requires MayDesignate(Execute(history), other) && other.id != id
    ensures var released := Execute(history)[id].(released := true);
            var basis := Basis(|history|, None);
            var longer := history + [Designated(other, now, basis)] + [WrittenBack(released, basis)];
            Legal(longer) && !OneCurrent(Execute(longer))
  {
    hide Execute, Legal, DesignationsStandAlone;
    EveryRunKeepsOneCurrent(history);
    var released := Execute(history)[id].(released := true);
    var basis := Basis(|history|, None);
    var designated, edit := Designated(other, now, basis), WrittenBack(released, basis);
    LegalStep(history, designated);
    assert (history + [designated])[..|history|] == history;
    StillLegal(history + [designated], edit);
    ExecuteMore(history + [designated], edit);
    var after := Execute(history + [designated] + [edit]);
    assert after[id] == released && after[other.id] == other;
  }

  /** The product an effect is about; that of a removed record is the record's. */
  function ProductOf(store: Store, effect: Effect): Option<string> {
    match effect
    case Unchanged => None
    case Cleared(productId, _) => Some(productId)
    case Marked(firmware, _) => Some(firmware.productId)
    case Designated(firmware, _, _) => Some(firmware.productId)
    case Saved(firmware, _) => Some(firmware.productId)
    case WrittenBack(firmware, _) => Some(firmware.productId)
    case Removed(id) => if id in store then Some(store[id].productId) else None
    case BinaryWritten(_, _, _) => None
    case FileRemoved(_, _) => None
  }

  /** No operation changes, adds or removes a record of another product. */
  lemma OtherProductsUntouched(store: Store, effect: Effect, id: string)
    requires Allowed(store, effect)
    requires id in store ==> Some(store[id].productId) != ProductOf(store, effect)
    requires id in Apply(store, effect) ==> Some(Apply(store, effect)[id].productId) != ProductOf(store, effect)
    ensures id in store <==> id in Apply(store, effect)
    ensures id in store ==> Apply(store, effect)[id] == store[id]
  {
  }

  // ---------------------------------------------------------------- the designated firmware

  /** The firmware of a product that was designated last, unless it was since undone. */
  function LastDesignated(history: seq<Effect>, productId: string): Option<string> {
    if history == [] then None
    else Redesignated(LastDesignated(history[..|history| - 1], productId), history[|history| - 1], productId)
  }

  function Redesignated(earlier: Option<string>, effect: Effect, productId: string): Option<string> {
    match effect
    case Unchanged => earlier
    case Cleared(p, _) => if p == productId then None else earlier
    case Marked(firmware, _) => if firmware.productId == productId then Some(firmware.id) else earlier
    case Designated(firmware, _, _) => if firmware.productId == productId then Some(firmware.id) else earlier
    case Saved(firmware, _) => if earlier == Some(firmware.id) && !firmware.isCurrent then None else earlier
    case WrittenBack(firmware, _) => if earlier == Some(firmware.id) && !firmware.isCurrent then None else earlier
    case Removed(id) => if earlier == Some(id) then None else earlier
    case BinaryWritten(_, _, _) => earlier
    case FileRemoved(_, _) => earlier
  }

  /** No update cleared only one of the two flags, and no record was written back as it was before. */
  predicate Paired(history: seq<Effect>) {
    forall k :: 0 <= k < |history| ==> PairedEffect(history[k])
  }

  predicate PairedEffect(effect: Effect) {
    !effect.WrittenBack? && (effect.Saved? ==> effect.firmware.isDefault == effect.firmware.isCurrent)
  }

  /** The flags agree, and mark exactly the firmware of each product designated last. */
  ghost predicate FlagsFollow(store: Store, history: seq<Effect>) {
    && (forall id :: id in store ==> store[id].isDefault == store[id].isCurrent)
    && (forall id :: id in store && store[id].isCurrent ==> LastDesignated(history, store[id].productId) == Some(id))
    && (forall p: string :: LastDesignated(history, p).Some? ==>
          var id := LastDesignated(history, p).value;
          id in store && store[id].isCurrent && store[id].productId == p)
  }

  /** In runs that never clear only one flag, the flags mark the firmware designated last. */
  lemma {:induction false} FlagsMarkLastDesignated(history: seq<Effect>)
    requires Legal(history) && DesignationsStandAlone(history) && Paired(history)
    ensures FlagsFollow(Execute(history), history)
  {
    hide Apply, Allowed, FlagsFollow, KeysAreIds, OneCurrent, NoneCurrent, ClearedLast;
    if history == [] {
      NothingDesignated();
    } else {
      var before := history[..|history| - 1];
      PrefixesToo(history, |before|);
      FlagsMarkLastDesignated(before);
      EveryRunKeepsOneCurrent(before);
      StillFollow(Execute(before), before, history);
    }
  }

  lemma NothingDesignated()
    ensures FlagsFollow(map[], [])
  {
  }

  lemma StillFollow(store: Store, before: seq<Effect>, history: seq<Effect>)
    requires history != [] && history[..|history| - 1] == before && Paired(history)
    requires FlagsFollow(store, before) && KeysAreIds(store) && OneCurrent(store)
    requires Allowed(store, history[|history| - 1])
    requires history[|history| - 1].Marked? ==> NoneCurrent(store, history[|history| - 1].firmware.productId)
    ensures FlagsFollow(Apply(store, history[|history| - 1]), history)
  {
    hide LastDesignated;
    var effect := history[|history| - 1];
    var after := Apply(store, effect);
    forall p: string ensures LastDesignated(history, p) == Redesignated(LastDesignated(before, p), effect, p) {
      LastStep(history, p);
    }
    assert PairedEffect(effect);
    FlagsStayEqual(store, effect);
    forall id | id in after && after[id].isCurrent ensures LastDesignated(history, after[id].productId) == Some(id) {
      CurrentIsLast(store, effect, id, LastDesignated(before, after[id].productId));
    }
    forall p: string | LastDesignated(history, p).Some?
      ensures IsCurrent(after, p, LastDesignated(history, p).value)
    {
      LastIsCurrent(store, effect, p, LastDesignated(before, p));
    }
  }

  lemma FlagsStayEqual(store: Store, effect: Effect)
    requires Allowed(store, effect) && PairedEffect(effect)
    requires forall id :: id in store ==> store[id].isDefault == store[id].isCurrent
    ensures forall id :: id in Apply(store, effect) ==> Apply(store, effect)[id].isDefault == Apply(store, effect)[id].isCurrent
  {
  }

  lemma CurrentIsLast(store: Store, effect: Effect, id: string, last: Option<string>)
    requires KeysAreIds(store) && OneCurrent(store) && Allowed(store, effect) && !effect.WrittenBack?
    requires effect.Marked? ==> NoneCurrent(store, effect.firmware.productId)
    requires id in Apply(store, effect) && Apply(store, effect)[id].isCurrent
    requires IsCurrent(store, Apply(store, effect)[id].productId, id) ==> last == Some(id)
    ensures Redesignated(last, effect, Apply(store, effect)[id].productId) == Some(id)
  {
  }

  lemma LastIsCurrent(store: Store, effect: Effect, productId: string, last: Option<string>)
    requires KeysAreIds(store) && Allowed(store, effect)
    requires last.Some? ==> IsCurrent(store, productId, last.value)
    requires Redesignated(last, effect, productId).Some?
    ensures IsCurrent(Apply(store, effect), productId, Redesignated(last, effect, productId).value)
  {
  }

  lemma LastStep(history: seq<Effect>, productId: string)
    requires history != []
    ensures LastDesignated(history, productId) ==
            Redesignated(LastDesignated(history[..|history| - 1], productId), history[|history| - 1], productId)
  {
  }

  /**
   * Clearing only the current flag of the designated firmware leaves its default flag
   * behind: the next designation does not clear that, and the firmware designated
   * before, if it sorts first, is still the one served.
   */
  lemma StaleDefaultIsServed(store: Store, first: ProductFirmware, second: ProductFirmware, now: int)
    requires KeysAreIds(store) && first.id in store && store[first.id] == first && first.isDefault && first.isCurrent
    requires second.id !in store && second.id != "" && second.isDefault && second.isCurrent && second.released && second.version != 0
    requires first.productId == second.productId && Older(first, second)
    ensures var demoted, designated := Saved(first.(isCurrent := false), Basis(0, None)), Designated(second, now, Basis(0, None));
            var after := Apply(Apply(store, demoted), designated);
            && Allowed(store, demoted) && Allowed(Apply(store, demoted), designated)
            && first.id in after && second.id in after
            && forall list :: Listed(after, second.productId, list) ==> Served(list) != Some(after[second.id])
  {
    var demoted, designated := Saved(first.(isCurrent := false), Basis(0, None)), Designated(second, now, Basis(0, None));
    var after := Apply(Apply(store, demoted), designated);
    hide Listed, Served;
    forall list | Listed(after, second.productId, list) ensures Served(list) != Some(after[second.id]) {
      ServedFirst(after, second.productId, list, first.id, second.id);
    }
  }

  // ---------------------------------------------------------------- lists

  /** The order of ListProductFirmware. */
  predicate Older(a: ProductFirmware, b: ProductFirmware) {
    if a.version == b.version then a.createdAt < b.createdAt else a.version < b.version
  }

  /** The records of a product, each once. */
  ghost predicate FromStore(store: Store, productId: string, list: seq<ProductFirmware>) {
    && (forall k :: 0 <= k < |list| ==>
          list[k].id in store && store[list[k].id] == list[k] && list[k].productId == productId)
    && (forall id :: id in store && store[id].productId == productId ==> store[id] in list)
    && (forall j, k :: 0 <= j < k < |list| ==> list[j].id != list[k].id)
  }

  ghost predicate Listed(store: Store, productId: string, list: seq<ProductFirmware>) {
    FromStore(store, productId, list) && Sorting.Sorted(Older, list)
  }

  predicate Marks(firmware: ProductFirmware) {
    firmware.isCurrent || firmware.isDefault
  }

  /** CurrentProductFirmware: the first marked record, or else the last record. */
  function Served(list: seq<ProductFirmware>): Option<ProductFirmware> {
    FirstMarked(list, if list == [] then None else Some(list[|list| - 1]))
  }

  function FirstMarked(list: seq<ProductFirmware>, otherwise: Option<ProductFirmware>): Option<ProductFirmware> {
    if list == [] then otherwise else if Marks(list[0]) then Some(list[0]) else FirstMarked(list[1..], otherwise)
  }

  lemma {:induction false} FirstMarkedIs(list: seq<ProductFirmware>, otherwise: Option<ProductFirmware>, k: nat)
    requires k < |list| && Marks(list[k]) && forall j :: 0 <= j < k ==> !Marks(list[j])
    ensures FirstMarked(list, otherwise) == Some(list[k])
  {
    if k > 0 {
      FirstMarkedIs(list[1..], otherwise, k - 1);
    }
  }

  lemma {:induction false} NoneMarked(list: seq<ProductFirmware>, otherwise: Option<ProductFirmware>)
    requires forall j :: 0 <= j < |list| ==> !Marks(list[j])
    ensures FirstMarked(list, otherwise) == otherwise
  {
    if list != [] {
      NoneMarked(list[1..], otherwise);
    }
  }

  /** The first marked record of a list. */
  lemma {:induction false} FirstMarkedAt(list: seq<ProductFirmware>, otherwise: Option<ProductFirmware>) returns (k: nat)
    requires exists j :: 0 <= j < |list| && Marks(list[j])
    ensures k < |list| && Marks(list[k]) && FirstMarked(list, otherwise) == Some(list[k])
    ensures forall j :: 0 <= j < k ==> !Marks(list[j])
  {
    if Marks(list[0]) {
      k := 0;
    } else {
      var j :| 0 <= j < |list| && Marks(list[j]);
      assert list[1..][j - 1] == list[j];
      var later := FirstMarkedAt(list[1..], otherwise);
      k := later + 1;
      assert forall j :: 0 < j < k ==> list[j] == list[1..][j - 1];
    }
  }

  lemma ServedFirst(store: Store, productId: string, list: seq<ProductFirmware>, first: string, second: string)
    requires Listed(store, productId, list) && first in store && second in store
    requires store[first].productId == productId && Marks(store[first]) && Older(store[first], store[second])
    ensures Served(list) != Some(store[second])
  {
    var j :| 0 <= j < |list| && list[j] == store[first];
    var k := FirstMarkedAt(list, Some(list[|list| - 1]));
    assert k <= j;
    assert k < j ==> !Older(list[j], list[k]);
  }

  lemma OlderIsStrictWeak()
    ensures Sorting.StrictWeak(Older)
  {
  }

  /** Sorting keeps the records of the product. */
  lemma SortedFromStore(store: Store, productId: string, found: seq<ProductFirmware>, list: seq<ProductFirmware>)
    requires FromStore(store, productId, found) && multiset(list) == multiset(found)
    ensures FromStore(store, productId, list)
  {
    assert forall f :: f in list <==> f in multiset(list);
    assert forall f :: f in found <==> f in multiset(found);
    forall k | 0 <= k < |list|
      ensures list[k].id in store && store[list[k].id] == list[k] && list[k].productId == productId
    {
      assert list[k] in found;
    }
    forall j, k | 0 <= j < k < |list| ensures list[j].id != list[k].id {
      assert list[k] in found;
      var i :| 0 <= i < |found| && found[i] == list[k];
      OccursOnce(found, i);
      OccursTwice(list, j, k);
    }
  }

  lemma OccursOnce(found: seq<ProductFirmware>, i: nat)
    requires i < |found| && forall j, k :: 0 <= j < k < |found| ==> found[j].id != found[k].id
    ensures multiset(found)[found[i]] == 1
  {
    assert found == found[..i] + [found[i]] + found[i + 1..];
    assert found[i] !in found[..i];
    assert found[i] !in found[i + 1..];
  }

  lemma OccursTwice(list: seq<ProductFirmware>, j: nat, k: nat)
    requires j < k < |list|
    ensures list[j] == list[k] ==> multiset(list)[list[k]] >= 2
  {
    assert list == list[..k] + [list[k]] + list[k + 1..];
    assert list[..k][j] == list[j];
  }

  // ---------------------------------------------------------------- references and checks

  /** A firmware is referred to by its ID, or by its version: then the oldest record with that version is meant. */
  ghost predicate Refers(store: Store, parse: string -> Option<int>, productId: string, reference: string, firmware: ProductFirmware) {
    && firmware.id in store && store[firmware.id] == firmware && firmware.productId == productId
    && (if reference in store then firmware.id == reference
        else
          && parse(reference) == Some(firmware.version)
          && (forall id :: id in store && store[id].productId == productId && store[id].version == firmware.version ==>
                firmware.createdAt <= store[id].createdAt))
  }

  ghost predicate Known(store: Store, parse: string -> Option<int>, productId: string, reference: string) {
    && productId != "" && reference != ""
    && (if reference in store then store[reference].productId == productId
        else parse(reference).Some? && HasVersion(store, productId, parse(reference).value))
  }

  ghost predicate HasVersion(store: Store, productId: string, version: int) {
    exists id :: id in store && store[id].productId == productId && store[id].version == version
  }

  /** The decision of CheckProductFirmwareUpdate for a device that reports its version (or 0) and firmware ID (or ""). */
  predicate UpdateAvailable(target: ProductFirmware, pinned: bool, currentVersion: int, currentFirmware: string) {
    && (pinned || target.released || target.isCurrent || target.isDefault)
    && !(currentFirmware != "" && currentFirmware == target.id)
    && !(currentVersion >= target.version && currentVersion != 0)
  }

  /** The firmware a check decides about: the one the product pins the device to, or else the one served. */
  ghost predicate Chosen(
    store: Store, parse: string -> Option<int>, format: int -> string, productId: string, pinned: Option<int>,
    firmware: ProductFirmware)
  {
    if pinned.Some? then Refers(store, parse, productId, format(pinned.value), firmware)
    else IsServed(store, productId, firmware)
  }

  ghost predicate IsServed(store: Store, productId: string, firmware: ProductFirmware) {
    exists list :: Listed(store, productId, list) && Served(list) == Some(firmware)
  }

  /** What CheckProductFirmwareUpdate answers, for a device that reports its version (or 0) and firmware ID (or ""). */
  ghost predicate Answer(
    store: Store, parse: string -> Option<int>, format: int -> string, productId: string, pinned: Option<int>,
    currentVersion: int, currentFirmware: string, r: Result<Option<(ProductFirmware, bool)>, Error>)
  {
    if r.Ok? && r.value.Some? then
      && Chosen(store, parse, format, productId, pinned, r.value.value.0)
      && (r.value.value.1 <==> UpdateAvailable(r.value.value.0, pinned.Some?, currentVersion, currentFirmware))
    else r.Ok? ==> NothingDue(store, productId, pinned.Some?, currentVersion, currentFirmware)
  }

  /**
   * A device is never sent to a version it has or is past. Once it has installed what
   * one check offered, the next check of the same catalogue offers nothing: always
   * when the device reports the version it installed, and when it reports only the
   * ID, as long as the check follows a designation.
   */
  lemma UpdatesConverge(
    history: seq<Effect>, parse: string -> Option<int>, format: int -> string, productId: string, pinned: Option<int>,
    currentVersion: int, currentFirmware: string, first: Result<Option<(ProductFirmware, bool)>, Error>,
    reported: int, reportedId: string, second: Result<Option<(ProductFirmware, bool)>, Error>)
    requires Legal(history) && DesignationsStandAlone(history)
    requires Answer(Execute(history), parse, format, productId, pinned, currentVersion, currentFirmware, first)
    requires first.Ok? && first.value.Some? && first.value.value.1
    requires Answer(Execute(history), parse, format, productId, pinned, reported, reportedId, second)
    ensures var installed := first.value.value.0;
            && (currentVersion == 0 || currentVersion < installed.version)
            && (reported == installed.version || (reportedId == installed.id && ByDesignation(history, productId, pinned)) ==>
                  !(second.Ok? && second.value.Some? && second.value.value.1))
  {
    hide Execute, IsServed, Refers, Legal, DesignationsStandAlone, ClearedLast, LastDesignated, Paired;
    EveryRunKeepsOneCurrent(history);
    var installed := first.value.value.0;
    if second.Ok? && second.value.Some? {
      SameChoice(Execute(history), parse, format, productId, pinned, installed, second.value.value.0);
      if ByDesignation(history, productId, pinned) {
        FlagsMarkLastDesignated(history);
        DesignatedIsServed(Execute(history), history, productId, installed);
        DesignatedIsServed(Execute(history), history, productId, second.value.value.0);
      }
    }
  }

  /** The check leaves no choice between records of equal version and age: it follows the last designation. */
  predicate ByDesignation(history: seq<Effect>, productId: string, pinned: Option<int>) {
    pinned.None? && Paired(history) && LastDesignated(history, productId).Some?
  }

  /** Two checks of one catalogue choose the same version. */
  lemma SameChoice(
    store: Store, parse: string -> Option<int>, format: int -> string, productId: string, pinned: Option<int>,
    a: ProductFirmware, b: ProductFirmware)
    requires KeysAreIds(store)
    requires Chosen(store, parse, format, productId, pinned, a) && Chosen(store, parse, format, productId, pinned, b)
    ensures a.version == b.version && a.version != 0 && a.id != ""
  {
    hide Listed, Served;
    if pinned.None? {
      var la :| Listed(store, productId, la) && Served(la) == Some(a);
      var lb :| Listed(store, productId, lb) && Served(lb) == Some(b);
      ServedIsFirst(store, productId, la, a);
      ServedIsFirst(store, productId, lb, b);
    }
  }

  /** What is served is the oldest marked record, or else the newest. */
  lemma ServedIsFirst(store: Store, productId: string, list: seq<ProductFirmware>, firmware: ProductFirmware)
    requires Listed(store, productId, list) && Served(list) == Some(firmware)
    ensures firmware.id in store && store[firmware.id] == firmware && firmware.productId == productId
    ensures if Marking(store, productId) then
              Marks(firmware) && forall id :: id in store && store[id].productId == productId && Marks(store[id]) ==> !Older(store[id], firmware)
            else forall id :: id in store && store[id].productId == productId ==> !Older(firmware, store[id])
  {
    hide Sorting.Sorted;
    if exists j :: 0 <= j < |list| && Marks(list[j]) {
      var k := FirstMarkedAt(list, Some(list[|list| - 1]));
      forall id | id in store && store[id].productId == productId && Marks(store[id]) ensures !Older(store[id], firmware) {
        var j :| 0 <= j < |list| && list[j] == store[id];
        InOrder(list, k, j);
      }
      assert Marking(store, productId);
    } else {
      NoneMarked(list, if list == [] then None else Some(list[|list| - 1]));
      LastIsNewest(store, productId, list);
      forall id | id in store && store[id].productId == productId ensures !Marks(store[id]) {
        assert store[id] in list;
      }
    }
  }

  ghost predicate Marking(store: Store, productId: string) {
    exists id :: id in store && store[id].productId == productId && Marks(store[id])
  }

  lemma InOrder(list: seq<ProductFirmware>, k: nat, j: nat)
    requires Sorting.Sorted(Older, list) && k <= j < |list|
    ensures !Older(list[j], list[k])
  {
  }

  /** In runs that never clear only one flag, the firmware designated last is the one served. */
  lemma DesignatedIsServed(store: Store, history: seq<Effect>, productId: string, firmware: ProductFirmware)
    requires FlagsFollow(store, history) && LastDesignated(history, productId).Some? && IsServed(store, productId, firmware)
    ensures firmware.id == LastDesignated(history, productId).value
  {
    hide Listed, Served, LastDesignated;
    var list :| Listed(store, productId, list) && Served(list) == Some(firmware);
    ServedIsFirst(store, productId, list, firmware);
    assert Marks(store[LastDesignated(history, productId).value]);
  }

  lemma ListedHasAll(store: Store, productId: string, list: seq<ProductFirmware>)
    requires Listed(store, productId, list)
    ensures list == [] <==> forall id :: id in store ==> store[id].productId != productId
    ensures forall k :: 0 <= k < |list| ==> list[k].id in store && store[list[k].id] == list[k] && list[k].productId == productId
  {
    hide Sorting.Sorted;
    if list != [] {
      assert store[list[0].id].productId == productId;
    }
  }

  lemma FirstIsServed(store: Store, productId: string, list: seq<ProductFirmware>, index: nat)
    requires Listed(store, productId, list) && index < |list| && Marks(list[index])
    requires forall k :: 0 <= k < index ==> !Marks(list[k])
    ensures IsServed(store, productId, list[index])
  {
    hide Listed;
    FirstMarkedIs(list, Some(list[|list| - 1]), index);
    assert Served(list) == Some(list[index]);
  }

  lemma LastIsServed(store: Store, productId: string, list: seq<ProductFirmware>)
    requires Listed(store, productId, list) && list != [] && forall k :: 0 <= k < |list| ==> !Marks(list[k])
    ensures IsServed(store, productId, list[|list| - 1])
  {
    hide Listed;
    NoneMarked(list, Some(list[|list| - 1]));
    assert Served(list) == Some(list[|list| - 1]);
  }

  /** In runs that never clear only one flag, what is served is the firmware designated last, or else the newest. */
  lemma ServedByDesignation(history: seq<Effect>, productId: string, firmware: ProductFirmware)
    requires Legal(history) && DesignationsStandAlone(history) && IsServed(Execute(history), productId, firmware)
    ensures Paired(history) ==>
              var store, last := Execute(history), LastDesignated(history, productId);
              if last.Some? then firmware.id == last.value && firmware.isCurrent
              else forall id :: id in store && store[id].productId == productId ==> !Older(firmware, store[id])
  {
    hide Execute, Legal, DesignationsStandAlone, LastDesignated, Listed, Served, Older, Paired;
    if Paired(history) {
      FlagsMarkLastDesignated(history);
      var store := Execute(history);
      var list :| Listed(store, productId, list) && Served(list) == Some(firmware);
      ServedIsFirst(store, productId, list, firmware);
      if LastDesignated(history, productId).Some? {
        DesignatedIsServed(store, history, productId, firmware);
      }
    }
  }

  /** The product has a firmware that is not to be offered to the device. */
  ghost predicate NothingDue(store: Store, productId: string, pinned: bool, currentVersion: int, currentFirmware: string) {
    exists id :: id in store && store[id].productId == productId &&
                 !UpdateAvailable(store[id], pinned, currentVersion, currentFirmware)
  }

  /** The flash jobs that keep a firmware from being deleted. */
  predicate InUse(jobs: map<string, FlashJobs.Job>, firmwareId: string) {
    exists id :: id in jobs && jobs[id].firmwareId == firmwareId &&
                 (jobs[id].status == FlashJobs.Queued || jobs[id].status == FlashJobs.Running)
  }

  lemma LastIsNewest(store: Store, productId: string, list: seq<ProductFirmware>)
    requires Listed(store, productId, list) && list != []
    ensures forall id :: id in store && store[id].productId == productId ==> !Older(list[|list| - 1], store[id])
  {
    forall id | id in store && store[id].productId == productId ensures !Older(list[|list| - 1], store[id]) {
      var k :| 0 <= k < |list| && list[k] == store[id];
      assert k < |list| - 1 ==> !Older(list[|list| - 1], list[k]);
    }
  }

  // ---------------------------------------------------------------- the code

  /** Where a binary is written, for the ID of its record and its file name; never where another record's is. */
  type PathFor = (string, string) -> string

  ghost predicate DistinctPaths(pathFor: PathFor) {
    forall a, m, b, n :: pathFor(a, m) == pathFor(b, n) ==> a == b
  }

  function Written(pathFor: PathFor, hash: ChunkManifest.Hash, id: string, filename: string, contents: Bytes): Binary {
    Binary(pathFor(id, filename), |contents|, hash(contents))
  }

  /** The file name after an update; a new binary needs one. */
  function EditedFilename(firmware: ProductFirmware, update: Update): string {
    if update.contents.None? then update.filename.UnwrapOr(firmware.filename)
    else
      var filename := if update.filename.UnwrapOr("") != "" then update.filename.value else firmware.filename;
      if filename == "" then "firmware.bin" else filename
  }

  /** What an update makes of a record before the flags of the product are cleared. */
  function Edited(pathFor: PathFor, hash: ChunkManifest.Hash, firmware: ProductFirmware, update: Update): ProductFirmware {
    var filename := EditedFilename(firmware, update);
    firmware.(
      version := update.version.UnwrapOr(firmware.version),
      title := update.title.UnwrapOr(firmware.title),
      description := update.description.UnwrapOr(firmware.description),
      filename := filename,
      contentType := update.contentType.UnwrapOr(firmware.contentType),
      releaseNotes := update.releaseNotes.UnwrapOr(firmware.releaseNotes),
      binary := if update.contents.None? then firmware.binary else Written(pathFor, hash, firmware.id, filename, update.contents.value),
      released := update.released.UnwrapOr(firmware.released),
      isDefault := update.isDefault.UnwrapOr(firmware.isDefault),
      isCurrent := update.isCurrent.UnwrapOr(firmware.isCurrent))
  }

  predicate Designating(update: Update) {
    update.isDefault == Some(true) || update.isCurrent == Some(true)
  }

  function AsDesignated(firmware: ProductFirmware, now: int): ProductFirmware {
    firmware.(released := true, isDefault := true, isCurrent := true, updatedAt := now)
  }

  /**
   * An update leaves the flags of a firmware in agreement exactly when it designates
   * it, or the firmware was not current, or it clears both flags or neither.
   */
  lemma UpdatesThatPair(pathFor: PathFor, hash: ChunkManifest.Hash, firmware: ProductFirmware, update: Update, now: int)
    requires firmware.isDefault == firmware.isCurrent
    ensures var edited := Edited(pathFor, hash, firmware, update);
            var stored := if Designating(update) then AsDesignated(edited, now) else edited;
            stored.isDefault == stored.isCurrent
            <==> Designating(update) || !firmware.isCurrent || (update.isDefault == Some(false) <==> update.isCurrent == Some(false))
  {
  }

  // ---------------------------------------------------------------- records and their binaries

  function FilesAfter(files: map<string, Bytes>, effect: Effect): map<string, Bytes> {
    match effect
    case BinaryWritten(_, binary, contents) => files[binary.path := contents]
    case FileRemoved(_, path) => files - {path}
    case _ => files
  }

  function Files(history: seq<Effect>): map<string, Bytes> {
    if history == [] then map[] else FilesAfter(Files(history[..|history| - 1]), history[|history| - 1])
  }

  /** The effect stores a record of the firmware. */
  predicate Stores(effect: Effect, id: string) {
    (effect.Marked? || effect.Designated? || effect.Saved? || effect.WrittenBack?) && effect.firmware.id == id
  }

  predicate WritesFor(effect: Effect, id: string) {
    effect.BinaryWritten? && effect.id == id
  }

  predicate RemovesFile(effect: Effect, path: string) {
    effect.FileRemoved? && effect.path == path
  }

  ghost predicate OwnPath(pathFor: PathFor, id: string, path: string) {
    exists filename :: path == pathFor(id, filename)
  }

  /** The binary a stored record names is the one its operation wrote, or that of the record as it was loaded. */
  predicate Based(history: seq<Effect>, id: string, binary: Binary, basis: Basis) {
    if basis.wrote.Some? then
      basis.wrote.value < |history| && WritesFor(history[basis.wrote.value], id) && history[basis.wrote.value].binary == binary
    else
      basis.loaded <= |history| && id in Execute(history[..basis.loaded]) && Execute(history[..basis.loaded])[id].binary == binary
  }

  /** Each binary is written and described as writeBinary does, and each record based on one. */
  ghost predicate Binds(pathFor: PathFor, hash: ChunkManifest.Hash, history: seq<Effect>, effect: Effect) {
    match effect
    case BinaryWritten(id, binary, contents) =>
      OwnPath(pathFor, id, binary.path) && contents != [] && binary.size == |contents| && binary.sha256 == hash(contents)
    case FileRemoved(id, path) => OwnPath(pathFor, id, path)
    case Unchanged => true
    case Cleared(_, _) => true
    case Removed(_) => true
    case _ => Based(history, effect.firmware.id, effect.firmware.binary, effect.basis)
  }

  ghost predicate FilesLegal(pathFor: PathFor, hash: ChunkManifest.Hash, history: seq<Effect>) {
    forall k :: 0 <= k < |history| ==> Binds(pathFor, hash, history[..k], history[k])
  }

  /** The last write of a binary for the firmware. */
  function LastWrite(history: seq<Effect>, id: string): (w: Option<nat>)
    ensures w.Some? ==> w.value < |history| && WritesFor(history[w.value], id)
    ensures forall k :: (w.Some? ==> w.value < k) && 0 <= k < |history| ==> !WritesFor(history[k], id)
  {
    if history == [] then None
    else if WritesFor(history[|history| - 1], id) then Some(|history| - 1)
    else
      assert forall k :: 0 <= k < |history| - 1 ==> history[..|history| - 1][k] == history[k];
      LastWrite(history[..|history| - 1], id)
  }

  /** The write that made the binary the stored record names, back through the loads and saves. */
  function Origin(history: seq<Effect>, id: string): Option<nat>
    decreases |history|
  {
    if history == [] then None
    else
      var before, effect := history[..|history| - 1], history[|history| - 1];
      if !Stores(effect, id) then Origin(before, id)
      else if effect.basis.wrote.Some? then effect.basis.wrote
      else if effect.basis.loaded <= |before| then Origin(history[..effect.basis.loaded], id)
      else None
  }

  /** The record names the binary written last, and that file was not removed since. */
  predicate Described(history: seq<Effect>, id: string) {
    var w := LastWrite(history, id);
    && w.Some? && Origin(history, id) == w
    && forall k :: w.value < k < |history| ==> !RemovesFile(history[k], history[w.value].binary.path)
  }

  /** The record describes the file it names. */
  predicate Agrees(hash: ChunkManifest.Hash, files: map<string, Bytes>, binary: Binary) {
    binary.path in files && binary.size == |files[binary.path]| && binary.sha256 == hash(files[binary.path])
  }

  lemma FilesPrefix(pathFor: PathFor, hash: ChunkManifest.Hash, history: seq<Effect>, n: nat)
    requires FilesLegal(pathFor, hash, history) && n <= |history|
    ensures FilesLegal(pathFor, hash, history[..n])
    ensures n < |history| ==> Binds(pathFor, hash, history[..n], history[n])
  {
    hide Binds;
    assert forall k :: 0 <= k <= n ==> history[..n][..k] == history[..k];
  }

  /** In every run, however late records are saved, a record names a binary once written for it. */
  lemma {:induction false} EveryRecordHasOrigin(pathFor: PathFor, hash: ChunkManifest.Hash, history: seq<Effect>, id: string)
    requires FilesLegal(pathFor, hash, history) && id in Execute(history)
    ensures Origin(history, id).Some?
    ensures var w := Origin(history, id).value;
            && w < |history| && WritesFor(history[w], id) && history[w].binary == Execute(history)[id].binary
            && Binds(pathFor, hash, history[..w], history[w])
    decreases |history|
  {
    hide OwnPath;
    var before, effect := history[..|history| - 1], history[|history| - 1];
    FilesPrefix(pathFor, hash, history, |before|);
    if !Stores(effect, id) {
      EveryRecordHasOrigin(pathFor, hash, before, id);
      assert before[..Origin(before, id).value] == history[..Origin(before, id).value];
    } else if effect.basis.wrote.Some? {
      FilesPrefix(pathFor, hash, history, effect.basis.wrote.value);
    } else {
      var loaded := history[..effect.basis.loaded];
      assert before[..effect.basis.loaded] == loaded;
      FilesPrefix(pathFor, hash, history, |loaded|);
      EveryRecordHasOrigin(pathFor, hash, loaded, id);
      assert loaded[..Origin(loaded, id).value] == history[..Origin(loaded, id).value];
    }
  }

  /** A file that is neither written nor removed again stays as it was written. */
  lemma {:induction false} FileStays(history: seq<Effect>, w: nat)
    requires w < |history| && history[w].BinaryWritten?
    requires forall k :: w < k < |history| ==>
      !(history[k].BinaryWritten? && history[k].binary.path == history[w].binary.path) && !RemovesFile(history[k], history[w].binary.path)
    ensures history[w].binary.path in Files(history) && Files(history)[history[w].binary.path] == history[w].contents
    decreases |history|
  {
    if w < |history| - 1 {
      FileStays(history[..|history| - 1], w);
    }
  }

  /**
   * However operations on the records and their binaries overlap, and whatever fails:
   * a record describes its file while it names the binary written last for it, and
   * that file was not removed since.
   */
  lemma RecordsDescribeTheirFiles(pathFor: PathFor, hash: ChunkManifest.Hash, history: seq<Effect>, id: string)
    requires DistinctPaths(pathFor) && FilesLegal(pathFor, hash, history)
    requires id in Execute(history) && Described(history, id)
    ensures Agrees(hash, Files(history), Execute(history)[id].binary)
  {
    hide Execute, Origin, LastWrite, Files;
    EveryRecordHasOrigin(pathFor, hash, history, id);
    var w := Origin(history, id).value;
    forall k | w < k < |history| && history[k].BinaryWritten? ensures history[k].binary.path != history[w].binary.path {
      FilesPrefix(pathFor, hash, history, k);
    }
    FileStays(history, w);
  }

  /** In every run a record describes its file exactly when the file has the bytes the record was made for. */
  lemma RecordDescribesExactly(pathFor: PathFor, hash: ChunkManifest.Hash, history: seq<Effect>, id: string)
    requires ChunkManifest.CollisionFree(hash) && FilesLegal(pathFor, hash, history) && id in Execute(history)
    ensures var binary, w := Execute(history)[id].binary, Origin(history, id);
            && w.Some? && w.value < |history| && history[w.value].BinaryWritten?
            && (Agrees(hash, Files(history), binary)
                <==> binary.path in Files(history) && Files(history)[binary.path] == history[w.value].contents)
  {
    hide Execute, Origin, Files;
    EveryRecordHasOrigin(pathFor, hash, history, id);
  }

  // ---------------------------------------------------------------- replacements that stand alone

  /** The effect changes which binary the firmware has. */
  predicate Rebinds(effect: Effect, id: string) {
    WritesFor(effect, id) || effect == Removed(id) || (Stores(effect, id) && effect.basis.wrote.Some?)
  }

  /**
   * No edit of the firmware overlaps a replacement of its binary, from the write to
   * the save, and the firmware is not deleted.
   */
  predicate ReplacedAlone(history: seq<Effect>, id: string) {
    forall k :: 0 <= k < |history| ==> EditedAlone(history[..k], history[k], id)
  }

  predicate EditedAlone(history: seq<Effect>, effect: Effect, id: string) {
    && effect != Removed(id)
    && (Stores(effect, id) ==>
          && effect.basis.loaded <= |history|
          && (effect.basis.wrote.Some? ==>
                effect.basis.loaded <= effect.basis.wrote.value < |history| && WritesFor(history[effect.basis.wrote.value], id))
          && forall j :: effect.basis.loaded <= j < |history| && Rebinds(history[j], id) ==> effect.basis.wrote == Some(j))
    && (effect.FileRemoved? && effect.id == id ==>
          var w := LastWrite(history, id); w.Some? ==> history[w.value].binary.path != effect.path)
  }

  /** The record that names the binary written last was saved. */
  ghost predicate LastWriteSaved(history: seq<Effect>, id: string) {
    LastWrite(history, id).Some? && exists k :: 0 <= k < |history| && Saves(history[k], id, LastWrite(history, id))
  }

  predicate Saves(effect: Effect, id: string, wrote: Option<nat>) {
    Stores(effect, id) && effect.basis.wrote == wrote
  }

  /**
   * While no edit of a firmware overlaps a replacement of its binary, its record
   * describes its file exactly when the last replacement was saved.
   */
  lemma SavedReplacementsDescribe(pathFor: PathFor, hash: ChunkManifest.Hash, history: seq<Effect>, id: string)
    requires DistinctPaths(pathFor) && FilesLegal(pathFor, hash, history)
    requires id in Execute(history) && ReplacedAlone(history, id)
    ensures Described(history, id) <==> LastWriteSaved(history, id)
  {
    hide Execute, Origin, Files, EditedAlone;
    EveryRecordHasOrigin(pathFor, hash, history, id);
    OriginWasSaved(history, id);
    if LastWriteSaved(history, id) {
      var w := LastWrite(history, id).value;
      var k :| 0 <= k < |history| && Saves(history[k], id, Some(w));
      OriginIsLast(history, id, w, k);
      forall j | w < j < |history| ensures !RemovesFile(history[j], history[w].binary.path) {
        NotRemoved(pathFor, hash, history, id, w, j);
      }
    }
  }

  lemma {:induction false} OriginWasSaved(history: seq<Effect>, id: string)
    requires Origin(history, id).Some?
    ensures exists k :: 0 <= k < |history| && Saves(history[k], id, Origin(history, id))
    decreases |history|
  {
    var before, effect := history[..|history| - 1], history[|history| - 1];
    var from := if !Stores(effect, id) then before else if effect.basis.wrote.Some? then history else history[..effect.basis.loaded];
    if from == history {
      assert Saves(history[|before|], id, Origin(history, id));
    } else {
      OriginWasSaved(from, id);
      var k :| 0 <= k < |from| && Saves(from[k], id, Origin(from, id));
      assert Saves(history[k], id, Origin(history, id));
    }
  }

  lemma AlonePrefix(history: seq<Effect>, id: string, n: nat)
    requires ReplacedAlone(history, id) && n <= |history|
    ensures ReplacedAlone(history[..n], id)
  {
    hide EditedAlone;
    assert forall k :: 0 <= k <= n ==> history[..n][..k] == history[..k];
  }

  /** Once the record for the last write was saved, all later ones stem from that write too. */
  lemma {:induction false} OriginIsLast(history: seq<Effect>, id: string, w: nat, k: nat)
    requires ReplacedAlone(history, id) && w < |history| && WritesFor(history[w], id)
    requires forall j :: w < j < |history| ==> !WritesFor(history[j], id)
    requires k < |history| && Saves(history[k], id, Some(w))
    ensures Origin(history, id) == Some(w)
    decreases |history|
  {
    hide LastWrite, Rebinds;
    var last := |history| - 1;
    var effect := history[last];
    assert EditedAlone(history[..last], effect, id) && EditedAlone(history[..k], history[k], id);
    if k < last {
      if !Stores(effect, id) {
        AlonePrefix(history, id, last);
        OriginIsLast(history[..last], id, w, k);
      } else {
        RebindsToo(history[w], history[k], id);
        if effect.basis.wrote.None? {
          OriginAtLoad(history, id, w, k);
        }
      }
    }
  }

  lemma RebindsToo(write: Effect, save: Effect, id: string)
    requires WritesFor(write, id) && Stores(save, id) && save.basis.wrote.Some?
    ensures Rebinds(write, id) && Rebinds(save, id)
  {
  }

  /** A record loaded after that save stems from the write. */
  lemma {:induction false} OriginAtLoad(history: seq<Effect>, id: string, w: nat, k: nat)
    requires ReplacedAlone(history, id) && w < k < |history| - 1 && WritesFor(history[w], id)
    requires forall j :: w < j < |history| ==> !WritesFor(history[j], id)
    requires Saves(history[k], id, Some(w))
    requires var effect := history[|history| - 1];
             Stores(effect, id) && effect.basis.wrote.None? && effect.basis.loaded < |history|
    ensures Origin(history, id) == Some(w)
    decreases |history|, 0
  {
    hide LastWrite, Rebinds;
    var loaded := history[|history| - 1].basis.loaded;
    assert EditedAlone(history[..|history| - 1], history[|history| - 1], id);
    RebindsToo(history[w], history[k], id);
    AlonePrefix(history, id, loaded);
    OriginIsLast(history[..loaded], id, w, k);
  }

  lemma NotRemoved(pathFor: PathFor, hash: ChunkManifest.Hash, history: seq<Effect>, id: string, w: nat, j: nat)
    requires DistinctPaths(pathFor) && FilesLegal(pathFor, hash, history) && ReplacedAlone(history, id)
    requires LastWrite(history, id) == Some(w) && w < j < |history|
    ensures !RemovesFile(history[j], history[w].binary.path)
  {
    hide LastWrite, Rebinds, Stores, FilesLegal, Based;
    FilesPrefix(pathFor, hash, history, w);
    FilesPrefix(pathFor, hash, history, j);
    LastWriteBefore(history, id, w, j);
    assert EditedAlone(history[..j], history[j], id);
  }

  lemma LastWriteBefore(history: seq<Effect>, id: string, w: nat, j: nat)
    requires LastWrite(history, id) == Some(w) && w < j <= |history|
    ensures LastWrite(history[..j], id) == Some(w)
  {
    hide LastWrite, WritesFor;
    assert WritesFor(history[..j][w], id);
    assert forall k :: 0 <= k < j ==> history[..j][k] == history[k];
  }

  // ---------------------------------------------------------------- one more effect

  lemma Appended(history: seq<Effect>, effect: Effect, id: string)
    ensures LastWrite(history + [effect], id) == if WritesFor(effect, id) then Some(|history|) else LastWrite(history, id)
    ensures Origin(history + [effect], id) ==
            if !Stores(effect, id) then Origin(history, id)
            else if effect.basis.wrote.Some? then effect.basis.wrote
            else if effect.basis.loaded <= |history| then Origin(history[..effect.basis.loaded], id) else None
    ensures Files(history + [effect]) == FilesAfter(Files(history), effect)
  {
    hide WritesFor, FilesAfter;
    var longer := history + [effect];
    assert longer[..|history|] == history;
    if Stores(effect, id) && effect.basis.loaded <= |history| {
      assert longer[..effect.basis.loaded] == history[..effect.basis.loaded];
    }
  }

  /** The effect leaves the binary of the firmware and its record's name for it as they are. */
  predicate LeavesBinary(history: seq<Effect>, effect: Effect, id: string) {
    && !WritesFor(effect, id) && !effect.FileRemoved?
    && (Stores(effect, id) ==> effect.basis == Basis(|history|, None))
  }

  lemma StillDescribed(history: seq<Effect>, effect: Effect, id: string)
    requires LeavesBinary(history, effect, id)
    ensures Described(history + [effect], id) <==> Described(history, id)
  {
    hide LastWrite, Origin, Files;
    assert history[..|history|] == history;
    Appended(history, effect, id);
    SameRemovals(history, effect, id);
  }

  lemma SameRemovals(history: seq<Effect>, effect: Effect, id: string)
    requires LastWrite(history + [effect], id) == LastWrite(history, id) && Origin(history + [effect], id) == Origin(history, id)
    requires LastWrite(history, id).Some? ==> !RemovesFile(effect, history[LastWrite(history, id).value].binary.path)
    ensures Described(history + [effect], id) <==> Described(history, id)
  {
    hide LastWrite, Origin;
    var longer, w := history + [effect], LastWrite(history, id);
    if w.Some? {
      assert longer[w.value] == history[w.value];
      assert forall k :: w.value < k < |history| ==> longer[k] == history[k];
    }
  }

  /** Removing a file of another firmware changes nothing. */
  lemma RemovedElsewhere(pathFor: PathFor, hash: ChunkManifest.Hash, history: seq<Effect>, effect: Effect, id: string)
    requires DistinctPaths(pathFor) && FilesLegal(pathFor, hash, history)
    requires effect.FileRemoved? && effect.id != id && OwnPath(pathFor, effect.id, effect.path)
    ensures Described(history + [effect], id) <==> Described(history, id)
  {
    hide LastWrite, Origin, Files;
    Appended(history, effect, id);
    var w := LastWrite(history, id);
    if w.Some? {
      FilesPrefix(pathFor, hash, history, w.value);
    }
    SameRemovals(history, effect, id);
  }

  /** After a new binary the record describes its file once it was saved, and not before. */
  lemma WrittenThenSaved(history: seq<Effect>, effect: Effect, id: string, w: nat)
    requires LastWrite(history, id) == Some(w) && Origin(history, id) != Some(w)
    requires forall k :: w < k < |history| ==> !RemovesFile(history[k], history[w].binary.path)
    requires !WritesFor(effect, id) && !effect.FileRemoved? && (Stores(effect, id) ==> effect.basis.wrote == Some(w))
    ensures Described(history + [effect], id) <==> Stores(effect, id)
  {
    hide LastWrite, Origin, Files;
    Appended(history, effect, id);
    var longer := history + [effect];
    assert longer[w] == history[w];
    assert forall k :: w < k < |history| ==> longer[k] == history[k];
  }

  // ---------------------------------------------------------------- what overlapping does break

  /** Two records of one file, of which at most one can describe it. */
  predicate Differ(a: Binary, b: Binary) {
    a.path == b.path && (a.size != b.size || a.sha256 != b.sha256)
  }

  /**
   * After every run: an edit that loads a record, and saves it after the binary was
   * replaced and the new record saved, brings the old size and checksum back.
   */
  lemma StaleSaveMisdescribes(
    pathFor: PathFor, hash: ChunkManifest.Hash, history: seq<Effect>, binary: Binary, contents: Bytes, edited: ProductFirmware)
    requires Legal(history) && DesignationsStandAlone(history) && FilesLegal(pathFor, hash, history)
    requires edited.id in Execute(history) && edited.binary == Execute(history)[edited.id].binary
    requires Allowed(Execute(history), Saved(edited, Basis(|history|, None)))
    requires Binds(pathFor, hash, history, BinaryWritten(edited.id, binary, contents)) && Differ(edited.binary, binary)
    ensures var replaced := Execute(history)[edited.id].(binary := binary);
            var longer := history + [BinaryWritten(edited.id, binary, contents)]
                        + [Saved(replaced, Basis(|history|, Some(|history|)))] + [WrittenBack(edited, Basis(|history|, None))];
            && Legal(longer) && DesignationsStandAlone(longer) && FilesLegal(pathFor, hash, longer)
            && edited.id in Execute(longer) && !Agrees(hash, Files(longer), Execute(longer)[edited.id].binary)
  {
    hide Execute, Legal, DesignationsStandAlone, FilesLegal, OwnPath, Files;
    EveryRunKeepsOneCurrent(history);
    var replaced := Execute(history)[edited.id].(binary := binary);
    var write, save := BinaryWritten(edited.id, binary, contents), Saved(replaced, Basis(|history|, Some(|history|)));
    var h1 := history + [write];
    var h2 := h1 + [save];
    HistoryStep(pathFor, hash, history, write);
    HistoryStep(pathFor, hash, h1, save);
    LateSave(pathFor, hash, history, write, save, edited);
  }

  lemma LateSave(
    pathFor: PathFor, hash: ChunkManifest.Hash, history: seq<Effect>, write: Effect, save: Effect, edited: ProductFirmware)
    requires Legal(history) && edited.id in Execute(history) && edited.binary == Execute(history)[edited.id].binary
    requires Allowed(Execute(history), Saved(edited, Basis(|history|, None)))
    requires write.BinaryWritten? && save.Saved? && save.firmware.id == edited.id && save.firmware.productId == edited.productId
    requires var longer := history + [write] + [save];
             && Legal(longer) && DesignationsStandAlone(longer) && FilesLegal(pathFor, hash, longer)
             && Execute(longer) == Execute(history)[edited.id := save.firmware]
             && Files(longer) == Files(history)[write.binary.path := write.contents]
    requires write.binary.size == |write.contents| && write.binary.sha256 == hash(write.contents) && Differ(edited.binary, write.binary)
    ensures var late, longer := WrittenBack(edited, Basis(|history|, None)), history + [write] + [save];
            && Legal(longer + [late]) && DesignationsStandAlone(longer + [late]) && FilesLegal(pathFor, hash, longer + [late])
            && edited.id in Execute(longer + [late]) && !Agrees(hash, Files(longer + [late]), Execute(longer + [late])[edited.id].binary)
  {
    hide Execute, Legal, DesignationsStandAlone, FilesLegal, OwnPath, Files;
    var late, longer := WrittenBack(edited, Basis(|history|, None)), history + [write] + [save];
    assert longer[..|history|] == history;
    assert longer[|history|] == write && longer[|history| + 1] == save;
    StillLegal(longer, late);
    StillStandAlone(longer, late);
    StillFilesLegal(pathFor, hash, longer, late);
    ExecuteMore(longer, late);
    Appended(longer, late, edited.id);
  }

  /** After every run: a replacement at the same path whose record cannot be saved leaves the old size and checksum. */
  lemma FailedSaveMisdescribes(
    pathFor: PathFor, hash: ChunkManifest.Hash, history: seq<Effect>, id: string, binary: Binary, contents: Bytes)
    requires Legal(history) && DesignationsStandAlone(history) && FilesLegal(pathFor, hash, history) && id in Execute(history)
    requires Binds(pathFor, hash, history, BinaryWritten(id, binary, contents)) && Differ(Execute(history)[id].binary, binary)
    ensures var longer := history + [BinaryWritten(id, binary, contents)];
            && Legal(longer) && DesignationsStandAlone(longer) && FilesLegal(pathFor, hash, longer)
            && id in Execute(longer) && !Agrees(hash, Files(longer), Execute(longer)[id].binary)
  {
    hide Execute, Legal, DesignationsStandAlone, FilesLegal, OwnPath, Files;
    HistoryStep(pathFor, hash, history, BinaryWritten(id, binary, contents));
  }

  lemma StillFilesLegal(pathFor: PathFor, hash: ChunkManifest.Hash, history: seq<Effect>, effect: Effect)
    requires FilesLegal(pathFor, hash, history) && Binds(pathFor, hash, history, effect)
    ensures FilesLegal(pathFor, hash, history + [effect])
  {
    hide Binds;
    var longer := history + [effect];
    assert longer[..|history|] == history;
    forall k | 0 <= k < |longer| ensures Binds(pathFor, hash, longer[..k], longer[k]) {
      if k < |history| {
        assert longer[..k] == history[..k];
      }
    }
  }

  lemma HistoryStep(pathFor: PathFor, hash: ChunkManifest.Hash, history: seq<Effect>, effect: Effect)
    requires Legal(history) && DesignationsStandAlone(history) && FilesLegal(pathFor, hash, history)
    requires Allowed(Execute(history), effect) && !effect.Marked? && !effect.WrittenBack?
    requires Binds(pathFor, hash, history, effect)
    ensures Legal(history + [effect]) && DesignationsStandAlone(history + [effect])
    ensures FilesLegal(pathFor, hash, history + [effect])
    ensures Execute(history + [effect]) == Apply(Execute(history), effect)
    ensures Files(history + [effect]) == FilesAfter(Files(history), effect)
  {
    hide Allowed, Apply, Execute, Legal, DesignationsStandAlone, FilesLegal, Binds, Files, FilesAfter;
    LegalStep(history, effect);
    StillFilesLegal(pathFor, hash, history, effect);
    Appended(history, effect, "");
  }

  class Service {
    var firmwares: Store
    var files: map<string, Bytes>
    ghost var history: seq<Effect>
    const parse: string -> Option<int>  // intFromString
    const format: int -> string         // strconv.Itoa
    const pathFor: PathFor
    const hash: ChunkManifest.Hash
    const reliable: bool                // saves and file operations succeed

    /** The records and files are those of a run, in which operations may have overlapped. */
    ghost predicate Valid()
      reads this
    {
      && DistinctPaths(pathFor) && firmwares == Execute(history) && files == Files(history)
      && Legal(history) && DesignationsStandAlone(history) && FilesLegal(pathFor, hash, history)
    }

    constructor (parse: string -> Option<int>, format: int -> string, pathFor: PathFor, hash: ChunkManifest.Hash, reliable: bool)
      requires DistinctPaths(pathFor)
      ensures Valid() && history == [] && firmwares == map[] && files == map[]
      ensures this.parse == parse && this.format == format && this.pathFor == pathFor && this.hash == hash
      ensures this.reliable == reliable
    {
      firmwares, files, history := map[], map[], [];
      this.parse, this.format, this.pathFor, this.hash, this.reliable := parse, format, pathFor, hash, reliable;
    }

    method Succeeds() returns (ok: bool)
      ensures reliable ==> ok
    {
      ok := *;
      if reliable {
        ok := true;
      }
    }

    method Save(firmware: ProductFirmware) returns (ok: bool)
      modifies this`firmwares
      ensures firmwares == if ok then old(firmwares)[firmware.id := firmware] else old(firmwares)
      ensures reliable ==> ok
    {
      ok := Succeeds();
      if ok {
        firmwares := firmwares[firmware.id := firmware];
      }
    }

    method Create(firmware: ProductFirmware) returns (err: Option<Error>)
      modifies this`firmwares
      ensures firmwares == if err.None? then old(firmwares)[firmware.id := firmware] else old(firmwares)
      ensures firmware.id in old(firmwares) ==> err == Some(Conflict)
      ensures reliable && firmware.id !in old(firmwares) ==> err.None?
    {
      if firmware.id in firmwares {
        return Some(Conflict);
      }
      var ok := Save(firmware);
      return if ok then None else Some(StoreFailed);
    }

    /** writeBinary: a file appears complete or not at all; an empty binary is refused. */
    method WriteBinary(id: string, filename: string, contents: Bytes) returns (r: Result<Binary, Error>)
      requires Valid()
      modifies this`files, this`history
      ensures Valid()
      ensures r.Ok? ==> contents != [] && r.value == Written(pathFor, hash, id, filename, contents)
      ensures r.Ok? ==> history == old(history) + [BinaryWritten(id, r.value, contents)]
      ensures r.Err? ==> r.error == BinaryFailed && history == old(history)
      ensures reliable && contents != [] ==> r.Ok?
    {
      hide Execute, Files, Legal, DesignationsStandAlone, FilesLegal;
      var ok := Succeeds();
      if !ok || contents == [] {
        return Err(BinaryFailed);
      }
      var path := pathFor(id, filename);
      var binary := Binary(path, |contents|, hash(contents));
      assert OwnPath(pathFor, id, path);
      HistoryStep(pathFor, hash, history, BinaryWritten(id, binary, contents));
      files := files[path := contents];
      history := history + [BinaryWritten(id, binary, contents)];
      return Ok(binary);
    }

    /** os.Remove with its error ignored: the file of a record is gone, or is still there. */
    method RemoveFile(path: string, ghost id: string) returns (ok: bool)
      requires Valid() && OwnPath(pathFor, id, path)
      modifies this`files, this`history
      ensures Valid()
      ensures history == if ok then old(history) + [FileRemoved(id, path)] else old(history)
      ensures reliable ==> ok
    {
      hide Execute, Files, Legal, DesignationsStandAlone, FilesLegal, OwnPath;
      ok := Succeeds();
      if ok {
        HistoryStep(pathFor, hash, history, FileRemoved(id, path));
        files := files - {path};
        history := history + [FileRemoved(id, path)];
      }
    }

    method GetByProductID(productId: string) returns (list: seq<ProductFirmware>)
      requires KeysAreIds(firmwares)
      ensures FromStore(firmwares, productId, list)
    {
      list := [];
      var ids := firmwares.Keys;
      while ids != {}
        invariant ids <= firmwares.Keys
        invariant forall k :: 0 <= k < |list| ==>
                    list[k].id in firmwares && firmwares[list[k].id] == list[k] && list[k].productId == productId &&
                    list[k].id !in ids
        invariant forall id :: id in firmwares && id !in ids && firmwares[id].productId == productId ==>
                    firmwares[id] in list
        invariant forall j, k :: 0 <= j < k < |list| ==> list[j].id != list[k].id
        decreases |ids|
      {
        var id :| id in ids;
        if firmwares[id].productId == productId {
          list := list + [firmwares[id]];
        }
        ids := ids - {id};
      }
    }

    method ListProductFirmware(productId: string) returns (r: Result<seq<ProductFirmware>, Error>)
      requires KeysAreIds(firmwares)
      ensures r.Err? <==> productId == ""
      ensures r.Err? ==> r.error == NotFound
      ensures r.Ok? ==> Listed(firmwares, productId, r.value)
    {
      if productId == "" {
        return Err(NotFound);
      }
      var found := GetByProductID(productId);
      OlderIsStrictWeak();
      var list := Sorting.SortSlice(Older, found);
      SortedFromStore(firmwares, productId, found, list);
      return Ok(list);
    }

    method GetProductFirmware(productId: string, reference: string) returns (r: Result<ProductFirmware, Error>)
      requires KeysAreIds(firmwares)
      ensures r.Ok? <==> Known(firmwares, parse, productId, reference)
      ensures r.Ok? ==> Refers(firmwares, parse, productId, reference, r.value)
      ensures r.Err? ==> r.error == NotFound
    {
      if productId == "" || reference == "" {
        return Err(NotFound);
      }
      if reference in firmwares {
        var firmware := firmwares[reference];
        if firmware.productId != productId {
          return Err(NotFound);
        }
        return Ok(firmware);
      }
      var version := parse(reference);
      if version.None? {
        return Err(NotFound);
      }
      var listed := ListProductFirmware(productId);
      var list := listed.value;
      for index := 0 to |list|
        invariant forall k :: 0 <= k < index ==> list[k].version != version.value
      {
        if list[index].version == version.value {
          FirstWithVersion(firmwares, productId, list, index);
          return Ok(list[index]);
        }
      }
      NoneWithVersion(firmwares, productId, list, version.value);
      return Err(NotFound);
    }

    /** One more than the largest version of the product, and at least 1. */
    method NextVersion(productId: string) returns (r: Result<int, Error>)
      requires KeysAreIds(firmwares)
      ensures r.Ok? <==> productId != ""
      ensures r.Ok? ==> r.value >= 1 && forall id :: id in firmwares && firmwares[id].productId == productId ==> firmwares[id].version < r.value
      ensures r.Ok? ==> r.value == 1 || HasVersion(firmwares, productId, r.value - 1)
    {
      var list :- ListProductFirmware(productId);
      var version := 0;
      for index := 0 to |list|
        invariant version >= 0
        invariant forall k :: 0 <= k < index ==> list[k].version <= version
        invariant version == 0 || exists k :: 0 <= k < index && list[k].version == version
      {
        if list[index].version > version {
          version := list[index].version;
        }
      }
      forall id | id in firmwares && firmwares[id].productId == productId ensures firmwares[id].version <= version {
        assert firmwares[id] in list;
      }
      return Ok(version + 1);
    }

    /**
     * Clears the flags of the product's current firmware. There is at most one, so
     * that a failed save leaves everything as it was.
     */
    method ClearCurrent(productId: string) returns (ok: bool, ghost now: int)
      requires KeysAreIds(firmwares) && OneCurrent(firmwares)
      modifies this`firmwares
      ensures firmwares == if ok then ClearFlags(old(firmwares), productId, now) else old(firmwares)
      ensures reliable ==> ok
    {
      var list := GetByProductID(productId);
      var time: int := *;
      now := time;
      ghost var cleared := false;
      for index := 0 to |list|
        invariant cleared <==> exists k :: 0 <= k < index && list[k].isCurrent
        invariant firmwares == if cleared then ClearFlags(old(firmwares), productId, now) else old(firmwares)
      {
        if list[index].isCurrent {
          OnlyCurrent(firmwares, productId, list, index, now);
          var firmware := list[index].(isCurrent := false, isDefault := false, updatedAt := time);
          ok := Save(firmware);
          if !ok {
            return;
          }
          cleared := true;
        }
      }
      if !cleared {
        NoCurrent(firmwares, productId, list, now);
      }
      ok := true;
    }

    /** Stores a record that was loaded and edited, after clearing the flags of its product if it is to be designated. */
    method StoreEdited(edited: ProductFirmware, designates: bool, ghost basis: Basis)
      returns (r: Result<ProductFirmware, Error>, ghost effect: Effect)
      requires Valid() && edited.id in firmwares && SameRecord(firmwares[edited.id], edited, designates)
      requires Based(history, edited.id, edited.binary, basis)
      modifies this`firmwares, this`history
      ensures Valid() && history == old(history) + [effect]
      ensures r.Ok? ==>
                if designates then
                  r.value == AsDesignated(edited, r.value.updatedAt) && effect.Designated? && effect.firmware == r.value && effect.basis == basis
                else r.value == edited.(updatedAt := r.value.updatedAt) && effect == Saved(r.value, basis)
      ensures r.Err? ==> r.error == StoreFailed
      ensures r.Err? ==> effect == Unchanged || (designates && effect.Cleared? && effect.productId == edited.productId)
      ensures reliable ==> r.Ok?
    {
      hide Execute, Files, Legal, DesignationsStandAlone, FilesLegal, ClearedLast, KeysAreIds, OneCurrent, Apply, Allowed, ClearFlags, Based;
      EveryRunKeepsOneCurrent(history);
      NothingApplied(firmwares);
      HistoryStep(pathFor, hash, history, Unchanged);
      effect := Unchanged;
      ghost var before, start := firmwares, history;
      history := history + [effect];
      var firmware := edited;
      var ok: bool;
      ghost var clearedAt := 0;
      if designates {
        ok, clearedAt := ClearCurrent(edited.productId);
        if !ok {
          return Err(StoreFailed), effect;
        }
        firmware := firmware.(released := true, isDefault := true, isCurrent := true);
      }
      ghost var cleared := firmwares;
      var now: int := *;
      firmware := firmware.(updatedAt := now);
      FoundIsStored(before, before[edited.id]);
      EffectOfStoring(before, cleared, firmware, clearedAt, designates, basis);
      ok := Save(firmware);
      effect := StoringEffect(firmware, clearedAt, designates, ok, basis);
      HistoryStep(pathFor, hash, start, effect);
      history := start + [effect];
      r := if ok then Ok(firmware) else Err(StoreFailed);
    }

    /** Designates a new firmware, or only stores it when neither flag is asked for. */
    method UploadProductFirmware(upload: Upload, id: string)
      returns (r: Result<ProductFirmware, Error>, ghost effect: Effect, ghost written: seq<Effect>)
      requires Valid() && id != "" // newFirmwareID gives 32 digits
      modifies this
      ensures Valid() && history == old(history) + written + [effect]
      ensures written == [] || written == [BinaryWritten(id, Written(pathFor, hash, id, upload.filename, upload.contents), upload.contents)]
      ensures r.Ok? ==> id !in old(firmwares) && Uploaded(old(firmwares), upload, id, r.value)
      ensures r.Ok? ==> if r.value.isCurrent then effect.Designated? && effect.firmware == r.value else effect.Saved? && effect.firmware == r.value
      ensures r.Ok? ==> written != [] && r.value.binary == written[0].binary
      ensures r.Err? ==> effect == Unchanged || (effect.Cleared? && effect.productId == upload.productId)
      ensures if written == [] then DescribesSame(old(history), history)
              else (Described(history, id) <==> r.Ok?) && DescribesOthers(old(history), history, id)
      ensures (reliable && upload.productId != "" && upload.contents != [] && id !in old(firmwares)) ==> r.Ok?
    {
      hide Execute, Files, Legal, DesignationsStandAlone, FilesLegal, ClearedLast, KeysAreIds, OneCurrent, Uploaded, Apply, Allowed,
           ClearFlags, Described, LastWrite, Origin, OwnPath;
      EveryRunKeepsOneCurrent(history);
      NothingApplied(firmwares);
      effect, written := Unchanged, [];
      ghost var before, first := firmwares, history;
      var prepared := PrepareUpload(upload, id);
      ghost var start := history;
      HistoryStep(pathFor, hash, start, effect);
      history := start + [effect];
      if prepared.Err? {
        NothingDescribed(first, effect);
        return prepared, effect, written;
      }
      var firmware := prepared.value;
      written := [BinaryWritten(id, firmware.binary, upload.contents)];
      ghost var basis := Basis(|first|, Some(|first|));
      NewlyDescribed(pathFor, hash, first, written, effect, id);
      var designates := firmware.isCurrent || firmware.isDefault;
      ghost var clearedAt := 0;
      if designates {
        var ok: bool;
        ok, clearedAt := ClearCurrent(upload.productId);
        if !ok {
          return Err(StoreFailed), effect, written;
        }
        firmware := firmware.(isCurrent := true, isDefault := true, released := true);
      }
      ghost var cleared := firmwares;
      ClearingKeepsIds(before, upload.productId, clearedAt);
      var err := Create(firmware);
      StoringNewIsAllowed(before, cleared, firmware, clearedAt, designates, err.None?, basis);
      effect := StoringEffect(firmware, clearedAt, designates, err.None?, basis);
      HistoryStep(pathFor, hash, start, effect);
      history := start + [effect];
      NewlyDescribed(pathFor, hash, first, written, effect, id);
      r := if err.None? then Ok(firmware) else Err(err.value);
    }

    /** The record an upload makes, before any flag of the product is cleared. */
    method PrepareUpload(upload: Upload, id: string) returns (r: Result<ProductFirmware, Error>)
      requires Valid() && KeysAreIds(firmwares)
      modifies this`files, this`history
      ensures Valid()
      ensures r.Ok? ==>
                && r.value.id == id && r.value.productId == upload.productId && r.value.version != 0
                && (r.value.isCurrent ==> r.value.isDefault)
                && (r.value.isDefault ==> r.value.released)
                && r.value.binary == Written(pathFor, hash, id, upload.filename, upload.contents)
                && history == old(history) + [BinaryWritten(id, r.value.binary, upload.contents)]
                && var stored := r.value.(isCurrent := r.value.isDefault);
                   Uploaded(firmwares, upload, id, stored)
      ensures r.Err? ==> history == old(history)
      ensures reliable && upload.productId != "" && upload.contents != [] ==> r.Ok?
    {
      hide Execute, Files, Legal, DesignationsStandAlone, FilesLegal;
      if upload.productId == "" {
        return Err(NotFound);
      }
      var version := upload.version;
      if version == 0 {
        var next := NextVersion(upload.productId);
        version := next.value;
      }
      var now: int := *;
      var binary := WriteBinary(id, upload.filename, upload.contents);
      if binary.Err? {
        return Err(binary.error);
      }
      return Ok(ProductFirmware(
        id, upload.productId, version,
        if upload.title == "" then upload.filename else upload.title, upload.description, upload.filename, upload.contentType,
        upload.releaseNotes, binary.value,
        upload.released || upload.isCurrent || upload.isDefault, upload.isDefault || upload.isCurrent, upload.isCurrent, now, now));
    }

    method ReleaseProductFirmware(productId: string, reference: string) returns (r: Result<ProductFirmware, Error>, ghost effect: Effect)
      requires Valid()
      modifies this`firmwares, this`history
      ensures Valid() && history == old(history) + [effect] && DescribesSame(old(history), history)
      ensures r.Ok? ==>
                && r.value.id in old(firmwares)
                && Refers(old(firmwares), parse, productId, reference, old(firmwares)[r.value.id])
                && r.value == old(firmwares)[r.value.id].(released := true, updatedAt := r.value.updatedAt)
                && effect == Saved(r.value, Basis(|old(history)|, None))
      ensures r.Err? ==> effect == Unchanged
      ensures reliable && Known(old(firmwares), parse, productId, reference) ==> r.Ok?
    {
      hide Execute, Files, Legal, DesignationsStandAlone, FilesLegal, ClearedLast, OneCurrent, Known, Refers, Apply, Allowed, Described;
      EveryRunKeepsOneCurrent(history);
      var loaded := GetProductFirmware(productId, reference);
      if loaded.Err? {
        NothingApplied(firmwares);
        HistoryStep(pathFor, hash, history, Unchanged);
        effect := Unchanged;
        NothingDescribed(history, effect);
        history := history + [effect];
        return loaded, effect;
      }
      RefersToStored(firmwares, parse, productId, reference, loaded.value);
      assert history[..|history|] == history;
      r, effect := StoreEdited(loaded.value.(released := true), false, Basis(|history|, None));
      NothingDescribed(old(history), effect);
    }

    method SetDefaultProductFirmware(productId: string, reference: string) returns (r: Result<ProductFirmware, Error>, ghost effect: Effect)
      requires Valid()
      modifies this`firmwares, this`history
      ensures Valid() && history == old(history) + [effect] && DescribesSame(old(history), history)
      ensures r.Ok? ==>
                && r.value.id in old(firmwares)
                && Refers(old(firmwares), parse, productId, reference, old(firmwares)[r.value.id])
                && r.value == AsDesignated(old(firmwares)[r.value.id], r.value.updatedAt)
                && effect.Designated? && effect.firmware == r.value
      ensures r.Err? ==> effect == Unchanged || (effect.Cleared? && effect.productId == productId)
      ensures reliable && Known(old(firmwares), parse, productId, reference) ==> r.Ok?
    {
      hide Execute, Files, Legal, DesignationsStandAlone, FilesLegal, ClearedLast, OneCurrent, Known, Refers, Apply, Allowed, Described;
      EveryRunKeepsOneCurrent(history);
      var loaded := GetProductFirmware(productId, reference);
      if loaded.Err? {
        NothingApplied(firmwares);
        HistoryStep(pathFor, hash, history, Unchanged);
        effect := Unchanged;
        NothingDescribed(history, effect);
        history := history + [effect];
        return loaded, effect;
      }
      RefersToStored(firmwares, parse, productId, reference, loaded.value);
      assert history[..|history|] == history;
      r, effect := StoreEdited(loaded.value, true, Basis(|history|, None));
      NothingDescribed(old(history), effect);
    }

    method UpdateProductFirmware(productId: string, reference: string, update: Update)
      returns (r: Result<ProductFirmware, Error>, ghost effect: Effect, ghost target: string, ghost written: seq<Effect>)
      requires Valid()
      modifies this
      ensures Valid() && history == old(history) + written + [effect]
      ensures r.Ok? ==>
                && target == r.value.id && target in old(firmwares)
                && Refers(old(firmwares), parse, productId, reference, old(firmwares)[target])
                && var edited := Edited(pathFor, hash, old(firmwares)[target], update);
                   if Designating(update)
                   then r.value == AsDesignated(edited, r.value.updatedAt) && effect.Designated? && effect.firmware == r.value
                   else r.value == edited.(updatedAt := r.value.updatedAt) && effect.Saved? && effect.firmware == r.value
      ensures r.Err? ==> effect == Unchanged || (Designating(update) && effect.Cleared? && effect.productId == productId)
      ensures r.Ok? && update.version.Some? ==> update.version.value > 0
      ensures update.contents.None? || (r.Err? && r.error != StoreFailed) <==> written == []
      ensures written != [] ==>
                && target in old(firmwares)
                && IsReplacement(written, old(firmwares)[target], Edited(pathFor, hash, old(firmwares)[target], update).binary, update.contents)
      ensures if written == [] then DescribesSame(old(history), history)
              else (Described(history, target) <==> r.Ok?) && DescribesOthers(old(history), history, target)
      ensures (reliable && Known(old(firmwares), parse, productId, reference) && update.version.UnwrapOr(1) > 0 &&
               update.contents != Some([])) ==> r.Ok?
    {
      hide Execute, Files, Legal, DesignationsStandAlone, FilesLegal, ClearedLast, OneCurrent, Known, Refers, Apply, Allowed,
           Edited, Described, LastWrite, Origin, OwnPath;
      EveryRunKeepsOneCurrent(history);
      NothingApplied(firmwares);
      HistoryStep(pathFor, hash, history, Unchanged);
      effect, target, written := Unchanged, "", [];
      NothingDescribed(history, effect);
      ghost var start := history;
      var loaded := GetProductFirmware(productId, reference);
      if loaded.Err? {
        history := history + [effect];
        return loaded, effect, target, written;
      }
      target := loaded.value.id;
      RefersToStored(firmwares, parse, productId, reference, loaded.value);
      if update.version.Some? && update.version.value <= 0 {
        history := history + [effect];
        return Err(NotFound), effect, target, written;
      }
      var edited;
      edited, written := EditRecord(loaded.value, update);
      assert start + [] == start;
      if edited.Err? {
        history := history + [effect];
        return edited, effect, target, written;
      }
      EditedVersion(pathFor, hash, loaded.value, update);
      ghost var basis := Basis(|start|, if written == [] then None else Some(|start|));
      EditIsBased(start, written, loaded.value, edited.value, update.contents);
      r, effect := StoreEdited(edited.value, Designating(update), basis);
      if written == [] {
        NothingDescribed(start, effect);
      } else {
        NewlyDescribed(pathFor, hash, start, written, effect, target);
      }
    }

    /** The part of an update before the flags are cleared: it edits the record in hand and replaces its binary. */
    method EditRecord(loaded: ProductFirmware, update: Update) returns (r: Result<ProductFirmware, Error>, ghost written: seq<Effect>)
      requires Valid() && loaded.id in firmwares && firmwares[loaded.id] == loaded
      modifies this`files, this`history
      ensures Valid() && history == old(history) + written
      ensures r.Ok? ==> r.value == Edited(pathFor, hash, loaded, update)
      ensures r.Ok? && update.contents.Some? ==> IsReplacement(written, loaded, r.value.binary, update.contents)
      ensures r.Err? || update.contents.None? ==> written == []
      ensures r.Err? ==> r.error == BinaryFailed && update.contents.Some?
      ensures reliable && update.contents != Some([]) ==> r.Ok?
    {
      hide Execute, Files, Legal, DesignationsStandAlone, FilesLegal, Edited, OwnPath, Origin;
      written := [];
      var firmware := Edited(pathFor, hash, loaded, update.(contents := None));
      if update.contents.None? {
        assert update.(contents := None) == update;
        return Ok(firmware), written;
      }
      var filename := loaded.filename;
      if update.filename.Some? && update.filename.value != "" {
        filename := update.filename.value;
      }
      if filename == "" {
        filename := "firmware.bin";
      }
      var binary;
      binary, written := ReplaceBinary(loaded, filename, update.contents.value);
      if binary.Err? {
        return Err(binary.error), written;
      }
      BinaryIsEdited(pathFor, hash, loaded, update);
      return Ok(firmware.(filename := filename, binary := binary.value)), written;
    }

    /** Writes the new binary, and then removes the old one if it is elsewhere. */
    method ReplaceBinary(loaded: ProductFirmware, filename: string, contents: Bytes)
      returns (r: Result<Binary, Error>, ghost written: seq<Effect>)
      requires Valid() && loaded.id in firmwares && firmwares[loaded.id] == loaded
      modifies this`files, this`history
      ensures Valid() && history == old(history) + written
      ensures r.Ok? ==> contents != [] && r.value == Written(pathFor, hash, loaded.id, filename, contents)
      ensures r.Ok? ==> IsReplacement(written, loaded, r.value, Some(contents))
      ensures r.Err? ==> r.error == BinaryFailed && written == []
      ensures reliable && contents != [] ==> r.Ok?
    {
      hide Execute, Files, Legal, DesignationsStandAlone, FilesLegal, OwnPath, Origin;
      written := [];
      EveryRecordHasOrigin(pathFor, hash, history, loaded.id);
      r := WriteBinary(loaded.id, filename, contents);
      if r.Err? {
        return;
      }
      written := [BinaryWritten(loaded.id, r.value, contents)];
      if loaded.binary.path != "" && loaded.binary.path != r.value.path {
        var removed := RemoveFile(loaded.binary.path, loaded.id);
        if removed {
          assert history == old(history) + (written + [FileRemoved(loaded.id, loaded.binary.path)]);
          written := written + [FileRemoved(loaded.id, loaded.binary.path)];
        }
      }
    }

    /** A firmware that a queued or running flash job uses is not deleted. */
    method DeleteProductFirmware(jobs: map<string, FlashJobs.Job>, productId: string, reference: string)
      returns (err: Option<Error>, ghost effect: Effect, ghost removed: seq<Effect>)
      requires Valid()
      modifies this
      ensures Valid() && history == old(history) + [effect] + removed
      ensures err.None? ==> effect.Removed?
      ensures effect.Removed? ==>
                && effect.id in old(firmwares) && !InUse(jobs, effect.id)
                && Refers(old(firmwares), parse, productId, reference, old(firmwares)[effect.id])
      ensures !effect.Removed? ==> effect == Unchanged && removed == []
      ensures effect.Removed? ==> removed == [] || removed == [FileRemoved(effect.id, old(firmwares)[effect.id].binary.path)]
      ensures DescribesOthers(old(history), history, if effect.Removed? then effect.id else "")
      ensures (reliable && Known(old(firmwares), parse, productId, reference)) ==> err.None? || err == Some(Conflict)
    {
      hide Execute, Files, Legal, DesignationsStandAlone, FilesLegal, ClearedLast, KeysAreIds, OneCurrent, Known, Described, Origin, LastWrite,
           OwnPath;
      EveryRunKeepsOneCurrent(history);
      HistoryStep(pathFor, hash, history, Unchanged);
      effect, removed := Unchanged, [];
      NothingDescribed(history, effect);
      ghost var start := history;
      var loaded := GetProductFirmware(productId, reference);
      history := history + [effect];
      if loaded.Err? {
        return Some(loaded.error), effect, removed;
      }
      var firmware := loaded.value;
      if InUse(jobs, firmware.id) {
        return Some(Conflict), effect, removed;
      }
      var ok := Succeeds();
      if !ok {
        return Some(StoreFailed), effect, removed;
      }
      EveryRecordHasOrigin(pathFor, hash, start, firmware.id);
      effect := Removed(firmware.id);
      HistoryStep(pathFor, hash, start, effect);
      NothingDescribed(start, effect);
      firmwares := firmwares - {firmware.id};
      history := start + [effect];
      if firmware.binary.path != "" {
        ok := RemoveFile(firmware.binary.path, firmware.id);
        if ok {
          removed := [FileRemoved(firmware.id, firmware.binary.path)];
          OthersDescribed(pathFor, hash, start + [effect], removed[0]);
        }
        if !ok && firmware.binary.path in files {
          return Some(BinaryFailed), effect, removed;
        }
      }
      return None, effect, removed;
    }

    /**
     * The firmware a product's devices run: in runs that never clear only one flag it
     * is the one designated last, while it is still designated; without one it is
     * the newest version.
     */
    method CurrentProductFirmware(productId: string) returns (r: Result<ProductFirmware, Error>)
      requires Valid()
      ensures r.Ok? <==> productId != "" && exists id :: id in firmwares && firmwares[id].productId == productId
      ensures r.Ok? ==> r.value.id in firmwares && firmwares[r.value.id] == r.value && r.value.productId == productId
      ensures r.Ok? ==> IsServed(firmwares, productId, r.value)
      ensures r.Ok? && Paired(history) ==>
                var last := LastDesignated(history, productId);
                if last.Some? then r.value.id == last.value && r.value.isCurrent
                else forall id :: id in firmwares && firmwares[id].productId == productId ==> !Older(r.value, firmwares[id])
    {
      hide Execute, Legal, DesignationsStandAlone, ClearedLast, OneCurrent, LastDesignated, Paired, FilesLegal, Files,
           Listed, Served, IsServed, Older;
      EveryRunKeepsOneCurrent(history);
      var list :- ListProductFirmware(productId);
      ListedHasAll(firmwares, productId, list);
      for index := 0 to |list|
        invariant forall k :: 0 <= k < index ==> !Marks(list[k])
      {
        if list[index].isCurrent || list[index].isDefault {
          FirstIsServed(firmwares, productId, list, index);
          ServedByDesignation(history, productId, list[index]);
          return Ok(list[index]);
        }
      }
      if |list| == 0 {
        return Err(NotFound);
      }
      LastIsServed(firmwares, productId, list);
      ServedByDesignation(history, productId, list[|list| - 1]);
      return Ok(list[|list| - 1]);
    }

    method CheckProductFirmwareUpdate(productId: string, target: Option<int>, currentVersion: int, currentFirmware: string)
      returns (r: Result<Option<(ProductFirmware, bool)>, Error>)
      requires Valid()
      ensures r.Ok? && r.value.Some? ==>
                && var (firmware, available) := r.value.value;
                && firmware.id in firmwares && firmwares[firmware.id] == firmware && firmware.productId == productId
                && (target.Some? ==> Refers(firmwares, parse, productId, format(target.value), firmware))
                && (target.None? && Paired(history) && LastDesignated(history, productId).Some? ==>
                      firmware.id == LastDesignated(history, productId).value)
                && (available <==> UpdateAvailable(firmware, target.Some?, currentVersion, currentFirmware))
      ensures Answer(firmwares, parse, format, productId, target, currentVersion, currentFirmware, r)
      ensures r.Ok? <==>
                && productId != ""
                && if target.Some? then Known(firmwares, parse, productId, format(target.value))
                   else exists id :: id in firmwares && firmwares[id].productId == productId
      ensures r.Ok? && r.value.None? ==> NothingDue(firmwares, productId, target.Some?, currentVersion, currentFirmware)
      ensures r.Ok? && r.value.None? ==> target.None? && (Paired(history) ==> LastDesignated(history, productId).None?)
    {
      hide Execute, Legal, DesignationsStandAlone, ClearedLast, LastDesignated, Paired, FilesLegal, Files, IsServed, Refers, Known;
      EveryRunKeepsOneCurrent(history);
      if productId == "" {
        return Err(NotFound);
      }
      var found: Result<ProductFirmware, Error>;
      if target.None? {
        found := CurrentProductFirmware(productId);
      } else {
        found := GetProductFirmware(productId, format(target.value));
        if found.Ok? {
          RefersToStored(firmwares, parse, productId, format(target.value), found.value);
        }
      }
      var firmware :- found;
      if target.None? && !firmware.released && !firmware.isCurrent && !firmware.isDefault {
        assert !UpdateAvailable(firmwares[firmware.id], target.Some?, currentVersion, currentFirmware);
        return Ok(None);
      }
      if currentFirmware != "" && currentFirmware == firmware.id {
        return Ok(Some((firmware, false)));
      }
      if currentVersion >= firmware.version && currentVersion != 0 {
        return Ok(Some((firmware, false)));
      }
      return Ok(Some((firmware, true)));
    }
  }

  lemma NothingApplied(store: Store)
    ensures Apply(store, Unchanged) == store && Allowed(store, Unchanged)
  {
  }

  /** The effect of clearing, or not, and then storing a record, or failing to. */
  function StoringEffect(firmware: ProductFirmware, now: int, designates: bool, ok: bool, basis: Basis): Effect {
    if designates then if ok then Designated(firmware, now, basis) else Cleared(firmware.productId, now)
    else if ok then Saved(firmware, basis) else Unchanged
  }

  /** `edited` is a form of the stored record that may be saved, or designated. */
  predicate SameRecord(stored: ProductFirmware, edited: ProductFirmware, designates: bool) {
    && edited.id == stored.id != "" && edited.productId == stored.productId && edited.version != 0
    && (!designates ==> (edited.isCurrent ==> stored.isCurrent) && (edited.isDefault ==> stored.isDefault))
  }

  lemma EffectOfStoring(store: Store, cleared: Store, firmware: ProductFirmware, now: int, designates: bool, basis: Basis)
    requires firmware.id in store && SameRecord(store[firmware.id], firmware, designates)
    requires cleared == if designates then ClearFlags(store, firmware.productId, now) else store
    requires designates ==> firmware.isCurrent && firmware.isDefault && firmware.released
    ensures forall ok :: Allowed(store, StoringEffect(firmware, now, designates, ok, basis))
    ensures forall ok :: Apply(store, StoringEffect(firmware, now, designates, ok, basis)) ==
                         if ok then cleared[firmware.id := firmware] else cleared
    ensures Apply(store, Unchanged) == store
  {
  }

  lemma ClearingKeepsIds(store: Store, productId: string, now: int)
    ensures ClearFlags(store, productId, now).Keys == store.Keys
  {
  }

  lemma StoringNewIsAllowed(
    store: Store, cleared: Store, firmware: ProductFirmware, now: int, designates: bool, ok: bool, basis: Basis)
    requires ok ==> firmware.id !in store
    requires firmware.version != 0 && firmware.id != ""
    requires cleared == if designates then ClearFlags(store, firmware.productId, now) else store
    requires if designates then firmware.isCurrent && firmware.isDefault && firmware.released
             else !firmware.isCurrent && !firmware.isDefault
    ensures Allowed(store, StoringEffect(firmware, now, designates, ok, basis))
    ensures Apply(store, StoringEffect(firmware, now, designates, ok, basis)) == if ok then cleared[firmware.id := firmware] else cleared
  {
  }

  /** Which records describe their files is as before. */
  ghost predicate DescribesSame(before: seq<Effect>, after: seq<Effect>) {
    forall id :: Described(after, id) <==> Described(before, id)
  }

  ghost predicate DescribesOthers(before: seq<Effect>, after: seq<Effect>, target: string) {
    forall id :: id != target ==> (Described(after, id) <==> Described(before, id))
  }

  /** A new binary was written for the firmware, and the file of the old one, if it is another one, removed or not. */
  predicate IsReplacement(written: seq<Effect>, before: ProductFirmware, binary: Binary, contents: Option<Bytes>) {
    && contents.Some? && 1 <= |written| <= 2 && written[0] == BinaryWritten(before.id, binary, contents.value)
    && (|written| == 2 ==>
          written[1] == FileRemoved(before.id, before.binary.path) && before.binary.path != "" && before.binary.path != binary.path)
  }

  lemma NothingDescribed(history: seq<Effect>, effect: Effect)
    requires forall id :: LeavesBinary(history, effect, id)
    ensures DescribesSame(history, history + [effect])
  {
    hide Described, LeavesBinary;
    forall id ensures Described(history + [effect], id) <==> Described(history, id) {
      StillDescribed(history, effect, id);
    }
  }

  lemma OthersDescribed(pathFor: PathFor, hash: ChunkManifest.Hash, history: seq<Effect>, effect: Effect)
    requires DistinctPaths(pathFor) && FilesLegal(pathFor, hash, history)
    requires effect.FileRemoved? && OwnPath(pathFor, effect.id, effect.path)
    ensures DescribesOthers(history, history + [effect], effect.id)
  {
    hide Described, FilesLegal, OwnPath;
    forall id | id != effect.id ensures Described(history + [effect], id) <==> Described(history, id) {
      RemovedElsewhere(pathFor, hash, history, effect, id);
    }
  }

  /** The origin of a record lies in the run. */
  lemma {:induction false} OriginInRun(pathFor: PathFor, hash: ChunkManifest.Hash, history: seq<Effect>, id: string)
    requires FilesLegal(pathFor, hash, history)
    ensures Origin(history, id).Some? ==> Origin(history, id).value < |history|
    decreases |history|
  {
    hide OwnPath, Execute;
    if history != [] {
      var before, effect := history[..|history| - 1], history[|history| - 1];
      FilesPrefix(pathFor, hash, history, |before|);
      if !Stores(effect, id) {
        OriginInRun(pathFor, hash, before, id);
      } else if effect.basis.wrote.None? {
        FilesPrefix(pathFor, hash, history, effect.basis.loaded);
        OriginInRun(pathFor, hash, history[..effect.basis.loaded], id);
      }
    }
  }

  /** A replacement makes the record describe its file exactly when the record is saved, and leaves the others alone. */
  lemma NewlyDescribed(
    pathFor: PathFor, hash: ChunkManifest.Hash, history: seq<Effect>, written: seq<Effect>, effect: Effect, id: string)
    requires DistinctPaths(pathFor) && FilesLegal(pathFor, hash, history) && FilesLegal(pathFor, hash, history + written)
    requires 1 <= |written| <= 2 && WritesFor(written[0], id)
    requires |written| == 2 ==>
      written[1].FileRemoved? && written[1].id == id && written[1].path != written[0].binary.path
    requires !effect.BinaryWritten? && !effect.FileRemoved?
    requires forall other :: Stores(effect, other) ==> other == id && effect.basis.wrote == Some(|history|)
    ensures Described(history + written + [effect], id) <==> Stores(effect, id)
    ensures DescribesOthers(history, history + written + [effect], id)
  {
    hide Described, FilesLegal, OwnPath, LastWrite, Origin;
    var w := |history|;
    OriginInRun(pathFor, hash, history, id);
    var h1 := history + [written[0]];
    Appended(history, written[0], id);
    forall other | other != id ensures Described(h1, other) <==> Described(history, other) {
      StillDescribed(history, written[0], other);
    }
    var all := history + written;
    if |written| == 1 {
      assert all == h1;
    } else {
      assert all == h1 + [written[1]] && all[..|h1|] == h1;
      FilesPrefix(pathFor, hash, all, |h1|);
      Appended(h1, written[1], id);
      OthersDescribed(pathFor, hash, h1, written[1]);
    }
    assert all[w] == written[0];
    assert forall k :: w < k < |all| ==> all[k] == written[1];
    WrittenThenSaved(all, effect, id, w);
    forall other | other != id ensures Described(all + [effect], other) <==> Described(all, other) {
      StillDescribed(all, effect, other);
    }
  }

  lemma EditIsBased(
    history: seq<Effect>, written: seq<Effect>, loaded: ProductFirmware, edited: ProductFirmware, contents: Option<Bytes>)
    requires loaded.id in Execute(history) && Execute(history)[loaded.id] == loaded && edited.id == loaded.id
    requires if contents.Some? then IsReplacement(written, loaded, edited.binary, contents) else written == [] && edited.binary == loaded.binary
    ensures Based(history + written, edited.id, edited.binary, Basis(|history|, if written == [] then None else Some(|history|)))
  {
    hide Execute;
    assert (history + written)[..|history|] == history;
  }

  lemma FoundIsStored(store: Store, firmware: ProductFirmware)
    requires KeysAreIds(store) && firmware.id in store && store[firmware.id] == firmware
    ensures firmware.version != 0 && firmware.id != ""
  {
  }

  lemma RefersToStored(store: Store, parse: string -> Option<int>, productId: string, reference: string, firmware: ProductFirmware)
    requires Refers(store, parse, productId, reference, firmware)
    ensures firmware.id in store && store[firmware.id] == firmware && firmware.productId == productId
  {
  }

  lemma EditedVersion(pathFor: PathFor, hash: ChunkManifest.Hash, firmware: ProductFirmware, update: Update)
    ensures var edited := Edited(pathFor, hash, firmware, update);
            && edited.id == firmware.id && edited.productId == firmware.productId
            && edited.version == update.version.UnwrapOr(firmware.version)
            && (update.contents.None? ==> edited.binary == firmware.binary)
            && (!Designating(update) ==> (edited.isCurrent ==> firmware.isCurrent) && (edited.isDefault ==> firmware.isDefault))
  {
  }

  /** The edited record describes the new binary. */
  lemma BinaryIsEdited(pathFor: PathFor, hash: ChunkManifest.Hash, firmware: ProductFirmware, update: Update)
    requires update.contents.Some?
    ensures Edited(pathFor, hash, firmware, update) == Edited(pathFor, hash, firmware, update.(contents := None)).(
              filename := EditedFilename(firmware, update),
              binary := Written(pathFor, hash, firmware.id, EditedFilename(firmware, update), update.contents.value))
  {
  }

  /** What a successful upload stores. */
  ghost predicate Uploaded(store: Store, upload: Upload, id: string, firmware: ProductFirmware) {
    && firmware.id == id && firmware.productId == upload.productId != ""
    && (if upload.version != 0 then firmware.version == upload.version
        else (forall other :: other in store && store[other].productId == upload.productId ==> store[other].version < firmware.version) &&
             (firmware.version == 1 || (firmware.version > 1 && HasVersion(store, upload.productId, firmware.version - 1))))
    && firmware.title == (if upload.title == "" then upload.filename else upload.title)
    && firmware.description == upload.description && firmware.filename == upload.filename
    && firmware.contentType == upload.contentType && firmware.releaseNotes == upload.releaseNotes
    && (firmware.isCurrent <==> upload.isCurrent || upload.isDefault)
    && (firmware.isDefault <==> upload.isCurrent || upload.isDefault)
    && (firmware.released <==> upload.released || upload.isCurrent || upload.isDefault)
    && firmware.createdAt == firmware.updatedAt
  }

  lemma FirstWithVersion(store: Store, productId: string, list: seq<ProductFirmware>, index: nat)
    requires Listed(store, productId, list) && index < |list|
    requires forall k :: 0 <= k < index ==> list[k].version != list[index].version
    ensures forall id :: id in store && store[id].productId == productId && store[id].version == list[index].version ==>
      list[index].createdAt <= store[id].createdAt
    ensures HasVersion(store, productId, list[index].version)
  {
    forall id | id in store && store[id].productId == productId && store[id].version == list[index].version
      ensures list[index].createdAt <= store[id].createdAt
    {
      var k :| 0 <= k < |list| && list[k] == store[id];
      assert k > index ==> !Older(list[k], list[index]);
    }
    assert store[list[index].id] == list[index];
  }

  lemma NoneWithVersion(store: Store, productId: string, list: seq<ProductFirmware>, version: int)
    requires Listed(store, productId, list) && forall k :: 0 <= k < |list| ==> list[k].version != version
    ensures !HasVersion(store, productId, version)
  {
    forall id | id in store && store[id].productId == productId ensures store[id].version != version {
      assert store[id] in list;
    }
  }

  /** The current firmware of a product is the only one, and clearing it clears the product's flags. */
  lemma OnlyCurrent(store: Store, productId: string, list: seq<ProductFirmware>, index: nat, now: int)
    requires OneCurrent(store) && FromStore(store, productId, list) && index < |list| && list[index].isCurrent
    ensures forall k :: 0 <= k < |list| && list[k].isCurrent ==> k == index
    ensures ClearFlags(store, productId, now) ==
            store[list[index].id := list[index].(isCurrent := false, isDefault := false, updatedAt := now)]
  {
  }

  lemma NoCurrent(store: Store, productId: string, list: seq<ProductFirmware>, now: int)
    requires FromStore(store, productId, list) && forall k :: 0 <= k < |list| ==> !list[k].isCurrent
    ensures ClearFlags(store, productId, now) == store
  {
    forall id | id in store && store[id].productId == productId ensures !store[id].isCurrent {
      assert store[id] in list;
    }
  }
}
