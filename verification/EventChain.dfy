/**
 * Hash-linked events (events/event-hash.ts): what an event's hash binds, the check of a
 * chain, and which payloads storage hands back with the same hash. sha256 is any function
 * that is injective and never yields the empty text.
 */
module EventChain {
  import opened Options
  import opened EventHash

  datatype Event = Event(
    eventType: string, entityType: string, entityId: string, actorType: string,
    actorId: Option<string>, timestamp: string, payload: Js,
    idempotencyKey: Option<string>, correlationId: Option<string>)

  type Digest = string

  /** sha256 over the previous hash, a newline and the text; the newline keeps the two apart. */
  type Sha = (Digest, Text) -> Digest

  ghost predicate IsSha(sha: Sha) {
    && (forall p, t, q, u :: sha(p, t) == sha(q, u) ==> p == q && t == u)
    && (forall p, t :: sha(p, t) != "")
  }

  function OrNull(s: Option<string>): Js {
    if s.Some? then Str(s.value) else Null
  }

  function PayloadOrNull(payload: Js): Js {
    if payload == Undefined then Null else payload
  }

  function EventValue(e: Event): Js {
    Arr([Str(e.eventType), Str(e.entityType), Str(e.entityId), Str(e.actorType), OrNull(e.actorId), Str(e.timestamp),
         PayloadOrNull(e.payload), OrNull(e.idempotencyKey), OrNull(e.correlationId)])
  }

  function CanonicalEventContent(e: Event): Text {
    Canon(EventValue(e))
  }

  function ComputeEventHash(sha: Sha, prev: Option<Digest>, e: Event): Digest {
    sha(if prev.Some? then prev.value else "", CanonicalEventContent(e))
  }

  // ---------------------------------------------------------------- what the text binds

  /** The same business event: every field equal, the payload the same content. */
  ghost predicate SameEvent(e: Event, f: Event) {
    && e.eventType == f.eventType && e.entityType == f.entityType && e.entityId == f.entityId
    && e.actorType == f.actorType && e.actorId == f.actorId && e.timestamp == f.timestamp
    && e.idempotencyKey == f.idempotencyKey && e.correlationId == f.correlationId
    && Same(e.payload, f.payload)
  }

  lemma {:induction false} ContentTellsEvents(e: Event, f: Event)
    requires IsValue(e.payload) && IsValue(f.payload)
    ensures CanonicalEventContent(e) == CanonicalEventContent(f) <==> SameEvent(e, f)
  {
    EventIsValue(e);
    EventIsValue(f);
    CanonTellsContent(EventValue(e), EventValue(f));
    EventValuesCompare(e, f);
  }

  lemma {:induction false} EventValuesCompare(e: Event, f: Event)
    ensures Same(EventValue(e), EventValue(f)) <==> SameEvent(e, f)
  {
    SameTexts(e, f);
    SameFields(e, f);
    FieldsCompare(
      Str(e.eventType), Str(e.entityType), Str(e.entityId), Str(e.actorType), OrNull(e.actorId), Str(e.timestamp),
      PayloadOrNull(e.payload), OrNull(e.idempotencyKey), OrNull(e.correlationId),
      Str(f.eventType), Str(f.entityType), Str(f.entityId), Str(f.actorType), OrNull(f.actorId), Str(f.timestamp),
      PayloadOrNull(f.payload), OrNull(f.idempotencyKey), OrNull(f.correlationId));
  }

  lemma {:induction false} SameTexts(e: Event, f: Event)
    ensures Same(Str(e.eventType), Str(f.eventType)) <==> e.eventType == f.eventType
    ensures Same(Str(e.entityType), Str(f.entityType)) <==> e.entityType == f.entityType
    ensures Same(Str(e.entityId), Str(f.entityId)) <==> e.entityId == f.entityId
    ensures Same(Str(e.actorType), Str(f.actorType)) <==> e.actorType == f.actorType
    ensures Same(Str(e.timestamp), Str(f.timestamp)) <==> e.timestamp == f.timestamp
  {
  }

  lemma {:induction false} EventIsValue(e: Event)
    requires IsValue(e.payload)
    ensures IsValue(EventValue(e))
  {
  }

  lemma {:induction false} SameFields(e: Event, f: Event)
    ensures Same(OrNull(e.actorId), OrNull(f.actorId)) <==> e.actorId == f.actorId
    ensures Same(OrNull(e.idempotencyKey), OrNull(f.idempotencyKey)) <==> e.idempotencyKey == f.idempotencyKey
    ensures Same(OrNull(e.correlationId), OrNull(f.correlationId)) <==> e.correlationId == f.correlationId
    ensures Same(PayloadOrNull(e.payload), PayloadOrNull(f.payload)) <==> Same(e.payload, f.payload)
  {
  }

  /** A list of nine fields compares field by field. */
  lemma {:induction false} FieldsCompare(a0: Js, a1: Js, a2: Js, a3: Js, a4: Js, a5: Js, a6: Js, a7: Js, a8: Js,
                                         b0: Js, b1: Js, b2: Js, b3: Js, b4: Js, b5: Js, b6: Js, b7: Js, b8: Js)
    ensures Same(Arr([a0, a1, a2, a3, a4, a5, a6, a7, a8]), Arr([b0, b1, b2, b3, b4, b5, b6, b7, b8])) <==>
      && Same(a0, b0) && Same(a1, b1) && Same(a2, b2) && Same(a3, b3) && Same(a4, b4)
      && Same(a5, b5) && Same(a6, b6) && Same(a7, b7) && Same(a8, b8)
  {
    var a, b := [a0, a1, a2, a3, a4, a5, a6, a7, a8], [b0, b1, b2, b3, b4, b5, b6, b7, b8];
    if Same(Arr(a), Arr(b)) {
      assert Same(a[0], b[0]) && Same(a[1], b[1]) && Same(a[2], b[2]) && Same(a[3], b[3]) && Same(a[4], b[4]);
      assert Same(a[5], b[5]) && Same(a[6], b[6]) && Same(a[7], b[7]) && Same(a[8], b[8]);
    }
  }

  // ---------------------------------------------------------------- checking a chain

  datatype Link = Link(event: Event, hash: Digest, prevHash: Option<Digest>)

  function PrevOf(links: seq<Link>, i: nat): Option<Digest>
    requires i <= |links|
  {
    if i == 0 then None else Some(links[i - 1].hash)
  }

  predicate LinkFits(sha: Sha, links: seq<Link>, i: nat)
    requires i < |links|
  {
    links[i].prevHash == PrevOf(links, i) && links[i].hash == ComputeEventHash(sha, PrevOf(links, i), links[i].event)
  }

  ghost predicate IsChain(sha: Sha, links: seq<Link>) {
    forall i :: 0 <= i < |links| ==> LinkFits(sha, links, i)
  }

  /** Reports the first event whose link or hash does not fit, or nothing when all fit. */
  method VerifyChainLinks(sha: Sha, links: seq<Link>) returns (brokenAtIndex: Option<nat>)
    ensures brokenAtIndex == None <==> IsChain(sha, links)
    ensures brokenAtIndex.Some? ==>
      var i := brokenAtIndex.value;
      i < |links| && !LinkFits(sha, links, i) && forall j :: 0 <= j < i ==> LinkFits(sha, links, j)
  {
    var prev: Option<Digest> := None;
    var i := 0;
    while i < |links|
      invariant 0 <= i <= |links| && prev == PrevOf(links, i)
      invariant forall j :: 0 <= j < i ==> LinkFits(sha, links, j)
    {
      var link := links[i];
      if link.prevHash != prev {
        assert !LinkFits(sha, links, i);
        return Some(i);
      }
      var expected := ComputeEventHash(sha, prev, link.event);
      if link.hash != expected {
        assert !LinkFits(sha, links, i);
        return Some(i);
      }
      prev := Some(link.hash);
      i := i + 1;
    }
    brokenAtIndex := None;
  }

  /** Place `i` holds the same event under the same hash. */
  ghost predicate AgreeAt(a: seq<Link>, b: seq<Link>, i: nat) {
    i < |a| && i < |b| && a[i].hash == b[i].hash && SameEvent(a[i].event, b[i].event)
  }

  ghost predicate SameHistory(a: seq<Link>, b: seq<Link>) {
    |a| == |b| && forall i :: 0 <= i < |a| ==> AgreeAt(a, b, i)
  }

  lemma {:induction false} OneMoreAgrees(a: seq<Link>, b: seq<Link>)
    requires a != [] && b != [] && SameHistory(a[..|a| - 1], b[..|b| - 1]) && AgreeAt(a, b, |a| - 1)
    ensures SameHistory(a, b)
  {
    forall i | 0 <= i < |a| ensures AgreeAt(a, b, i) {
      if i < |a| - 1 {
        assert AgreeAt(a[..|a| - 1], b[..|b| - 1], i);
      }
    }
  }

  /**
   * Tamper evidence: two accepted chains that end in the same hash tell the same history,
   * event by event. Not even the length has to be compared.
   */
  lemma {:induction false} SameLastHashSameHistory(sha: Sha, a: seq<Link>, b: seq<Link>)
    requires IsSha(sha) && IsChain(sha, a) && IsChain(sha, b) && a != [] && b != []
    requires a[|a| - 1].hash == b[|b| - 1].hash
    requires forall l :: l in a || l in b ==> IsValue(l.event.payload)
    ensures SameHistory(a, b)
    decreases |a|
  {
    var m, n := |a| - 1, |b| - 1;
    LastLinksAgree(sha, a, b);
    if m > 0 {
      ShorterChain(sha, a);
      ShorterChain(sha, b);
      assert forall l :: l in a[..m] || l in b[..n] ==> l in a || l in b;
      SameLastHashSameHistory(sha, a[..m], b[..n]);
      assert AgreeAt(a, b, m);
      OneMoreAgrees(a, b);
    } else {
      assert AgreeAt(a, b, 0);
    }
  }

  /** Equal last hashes: the same last event, and before it nothing on both sides or equal hashes again. */
  lemma {:induction false} LastLinksAgree(sha: Sha, a: seq<Link>, b: seq<Link>)
    requires IsSha(sha) && IsChain(sha, a) && IsChain(sha, b) && a != [] && b != []
    requires a[|a| - 1].hash == b[|b| - 1].hash
    requires forall l :: l in a || l in b ==> IsValue(l.event.payload)
    ensures SameEvent(a[|a| - 1].event, b[|b| - 1].event)
    ensures |a| == 1 <==> |b| == 1
    ensures |a| > 1 ==> a[|a| - 2].hash == b[|b| - 2].hash
  {
    var m, n := |a| - 1, |b| - 1;
    assert LinkFits(sha, a, m) && LinkFits(sha, b, n);
    assert a[m] in a && b[n] in b;
    ContentTellsEvents(a[m].event, b[n].event);
    if m > 0 { HashIsNotEmpty(sha, a, m - 1); }
    if n > 0 { HashIsNotEmpty(sha, b, n - 1); }
  }

  lemma {:induction false} HashIsNotEmpty(sha: Sha, a: seq<Link>, i: nat)
    requires IsSha(sha) && IsChain(sha, a) && i < |a|
    ensures a[i].hash != ""
  {
    assert LinkFits(sha, a, i);
  }

  /** What was accepted once stays accepted as the beginning of a longer chain, and back. */
  lemma {:induction false} ShorterChain(sha: Sha, a: seq<Link>)
    requires IsChain(sha, a) && a != []
    ensures IsChain(sha, a[..|a| - 1])
  {
    var p := a[..|a| - 1];
    forall i | 0 <= i < |p| ensures LinkFits(sha, p, i) {
      assert LinkFits(sha, a, i);
    }
  }

  lemma {:induction false} LongerChain(sha: Sha, a: seq<Link>, l: Link)
    requires IsChain(sha, a) && l.prevHash == PrevOf(a, |a|) && l.hash == ComputeEventHash(sha, l.prevHash, l.event)
    ensures IsChain(sha, a + [l])
  {
    var b := a + [l];
    forall i | 0 <= i < |b| ensures LinkFits(sha, b, i) {
      if i < |a| {
        assert LinkFits(sha, a, i);
      }
    }
  }

  // ---------------------------------------------------------------- what storage keeps

  /** JSON storage drops properties that are `undefined` and turns `undefined` elements into null. */
  function Stripped(v: Js): Js {
    match v
    case Undefined => Null
    case Arr(items) => Arr(StrippedItems(items))
    case Obj(members) => Obj(StrippedMembers(members))
    case _ => v
  }

  function StrippedItems(items: seq<Js>): seq<Js> {
    if items == [] then [] else [Stripped(items[0])] + StrippedItems(items[1..])
  }

  function StrippedMembers(members: seq<Member>): seq<Member> {
    if members == [] then []
    else (if members[0].value == Undefined then [] else [Member(members[0].key, Stripped(members[0].value))])
         + StrippedMembers(members[1..])
  }

  /** The column that is written: `payload ?? {}`, as JSON. */
  function StoredPayload(payload: Js): Js {
    if payload == Undefined || payload == Null then Obj([]) else Stripped(payload)
  }

  /** No property anywhere is `undefined`. */
  ghost predicate NoUndefinedProperty(v: Js) {
    match v
    case Arr(items) => forall i :: 0 <= i < |items| ==> NoUndefinedProperty(items[i])
    case Obj(members) => forall i :: 0 <= i < |members| ==> members[i].value != Undefined && NoUndefinedProperty(members[i].value)
    case _ => true
  }

  lemma {:induction false} StrippedItemsAre(items: seq<Js>)
    ensures |StrippedItems(items)| == |items|
    ensures forall i :: 0 <= i < |items| ==> StrippedItems(items)[i] == Stripped(items[i])
  {
    if items != [] {
      StrippedItemsAre(items[1..]);
    }
  }

  /** The surviving properties, and where they came from. */
  lemma {:induction false} StrippedMembersAre(members: seq<Member>)
    requires KeysApart(members)
    ensures KeysApart(StrippedMembers(members))
    ensures forall n :: n in StrippedMembers(members) ==>
      exists m :: m in members && m.value != Undefined && n == Member(m.key, Stripped(m.value))
    ensures forall m :: m in members && m.value != Undefined ==> Member(m.key, Stripped(m.value)) in StrippedMembers(members)
  {
    if members != [] {
      StrippedMembersAre(members[1..]);
      var rest := StrippedMembers(members[1..]);
      forall n | n in rest ensures n.key != members[0].key {
        var m :| m in members[1..] && m.value != Undefined && n == Member(m.key, Stripped(m.value));
      }
      forall n | n in StrippedMembers(members)
        ensures exists m :: m in members && m.value != Undefined && n == Member(m.key, Stripped(m.value))
      {
        if n in rest {
          var m :| m in members[1..] && m.value != Undefined && n == Member(m.key, Stripped(m.value));
          assert m in members;
        } else {
          assert members[0] in members;
        }
      }
    }
  }

  lemma {:induction false} StrippedIsValue(v: Js)
    requires IsValue(v)
    ensures IsValue(Stripped(v))
    decreases v
  {
    if v.Arr? {
      StrippedItemsAre(v.items);
      forall i | 0 <= i < |v.items| ensures IsValue(Stripped(v.items[i])) {
        StrippedIsValue(v.items[i]);
      }
    } else if v.Obj? {
      StrippedMembersAre(v.members);
      var now := StrippedMembers(v.members);
      forall k | 0 <= k < |now| ensures IsValue(now[k].value) {
        assert now[k] in now;
        var m :| m in v.members && m.value != Undefined && now[k] == Member(m.key, Stripped(m.value));
        var i :| 0 <= i < |v.members| && v.members[i] == m;
        StrippedIsValue(v.members[i].value);
      }
    }
  }

  /** Storage keeps the content exactly when no property anywhere is `undefined`. */
  lemma {:induction false} StorageKeepsContent(v: Js)
    requires IsValue(v)
    ensures Same(Stripped(v), v) <==> NoUndefinedProperty(v)
    decreases v
  {
    if v.Arr? {
      StrippedItemsAre(v.items);
      forall i | 0 <= i < |v.items| ensures Same(Stripped(v.items[i]), v.items[i]) <==> NoUndefinedProperty(v.items[i]) {
        StorageKeepsContent(v.items[i]);
      }
    } else if v.Obj? {
      forall i | 0 <= i < |v.members| ensures Same(Stripped(v.members[i].value), v.members[i].value) <==> NoUndefinedProperty(v.members[i].value) {
        StorageKeepsContent(v.members[i].value);
      }
      MembersKeepContent(v.members);
    }
  }

  lemma {:induction false} MembersKeepContent(members: seq<Member>)
    requires KeysApart(members)
    requires forall i :: 0 <= i < |members| ==>
      (Same(Stripped(members[i].value), members[i].value) <==> NoUndefinedProperty(members[i].value))
    ensures Same(Obj(StrippedMembers(members)), Obj(members)) <==> NoUndefinedProperty(Obj(members))
  {
    var now := StrippedMembers(members);
    StrippedMembersAre(members);
    if NoUndefinedProperty(Obj(members)) {
      forall i, j | 0 <= i < |now| && 0 <= j < |members| && now[i].key == members[j].key
        ensures Same(now[i].value, members[j].value)
      {
        OriginOf(members, i, j);
      }
      forall m | m in members ensures HasKey(now, m.key) {
        var j :| 0 <= j < |members| && members[j] == m;
        assert Member(m.key, Stripped(m.value)) in now;
      }
      forall n | n in now ensures HasKey(members, n.key) {
      }
    }
    if Same(Obj(now), Obj(members)) {
      forall j | 0 <= j < |members| ensures members[j].value != Undefined && NoUndefinedProperty(members[j].value) {
        assert members[j] in members && HasKey(now, members[j].key);
        var n :| n in now && n.key == members[j].key;
        var i :| 0 <= i < |now| && now[i] == n;
        OriginOf(members, i, j);
        assert Same(now[i].value, members[j].value);
      }
    }
  }

  lemma {:induction false} OriginOf(members: seq<Member>, i: nat, j: nat)
    requires KeysApart(members) && i < |StrippedMembers(members)| && j < |members|
    requires StrippedMembers(members)[i].key == members[j].key
    ensures members[j].value != Undefined && StrippedMembers(members)[i].value == Stripped(members[j].value)
  {
    var now := StrippedMembers(members);
    StrippedMembersAre(members);
    assert now[i] in now;
    var m :| m in members && m.value != Undefined && now[i] == Member(m.key, Stripped(m.value));
    var k :| 0 <= k < |members| && members[k] == m;
    assert k == j;
  }

  /** The hash still fits after storage exactly when the payload was there and had no `undefined` property. */
  lemma {:induction false} StoredHashFits(sha: Sha, prev: Option<Digest>, e: Event)
    requires IsSha(sha) && IsValue(e.payload)
    ensures IsValue(StoredPayload(e.payload))
    ensures ComputeEventHash(sha, prev, e.(payload := StoredPayload(e.payload))) == ComputeEventHash(sha, prev, e)
            <==> e.payload != Undefined && e.payload != Null && NoUndefinedProperty(e.payload)
  {
    var stored := e.(payload := StoredPayload(e.payload));
    StrippedIsValue(e.payload);
    StorageKeepsContent(e.payload);
    ContentTellsEvents(stored, e);
  }
}
