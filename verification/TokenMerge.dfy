/**
 How two copies of an account's runtime state are merged when one is saved over the other: the
 credential comes whole from the copy with the newer token.
 */
module TokenMerge {
  import opened Options
  import opened Json

  /** An account's runtime entry. */
  type Entry = Fields

  /** A record the operations edit in place. */
  class Record {
    var fields: Entry

    constructor (fields: Entry)
      ensures this.fields == fields
    {
      this.fields := fields;
    }

    /** Copies the field's value, or its absence. */
    method CopyRuntimeField(source: Entry, key: Key)
      modifies this
      ensures fields == Copied(old(fields), source, key)
    {
      if key in source {
        fields := fields[key := source[key]];
      } else {
        fields := fields - {key};
      }
    }

    method ApplyNewerTokenState(existing: Entry, incoming: Entry, now: real)
      modifies this
      ensures fields == WithCredentialOf(old(fields), NewerOf(existing, incoming, now))
    {
      var existingRefreshAt := TrustedRefreshStamp(existing, now);
      var incomingRefreshAt := TrustedRefreshStamp(incoming, now);
      var existingExpires := NumberOr(existing, Expires, 0.0);
      var incomingExpires := NumberOr(incoming, Expires, 0.0);
      var tokenSource :=
        if incomingRefreshAt > existingRefreshAt then incoming
        else if existingRefreshAt > incomingRefreshAt then existing
        else if incomingExpires > existingExpires then incoming
        else if existingExpires > incomingExpires then existing
        else SelectSameTokenState(existing, incoming);
      assert tokenSource == NewerOf(existing, incoming, now);
      hide *;
      CopyAll(fields, tokenSource);
      CopyRuntimeField(tokenSource, Access);
      CopyRuntimeField(tokenSource, Refresh);
      CopyRuntimeField(tokenSource, Expires);
      CopyRuntimeField(tokenSource, LastRefreshedAt);
      CopyRuntimeField(tokenSource, LastRefreshError);
    }
  }

  function Copied(fields: Entry, source: Entry, key: Key): Entry {
    if key in source then fields[key := source[key]] else fields - {key}
  }

  predicate IsCredential(f: Key) {
    f.Access? || f.Refresh? || f.Expires? || f.LastRefreshedAt? || f.LastRefreshError?
  }

  const CREDENTIAL_FIELDS := [Access, Refresh, Expires, LastRefreshedAt, LastRefreshError]

  /** `base` with the five credential fields as `source` has them. */
  function WithCredentialOf(base: Entry, source: Entry): Entry {
    map f | f in base.Keys + source.Keys && (if IsCredential(f) then f in source else f in base)
      :: if IsCredential(f) then source[f] else base[f]
  }

  function CopiedFields(base: Entry, source: Entry, fields: seq<Key>): Entry {
    if fields == [] then base
    else Copied(CopiedFields(base, source, fields[..|fields| - 1]), source, fields[|fields| - 1])
  }

  lemma CopyAll(base: Entry, source: Entry)
    ensures WithCredentialOf(base, source)
         == Copied(Copied(Copied(Copied(Copied(base, source, Access), source, Refresh), source, Expires), source,
                          LastRefreshedAt), source, LastRefreshError)
  {
    var copied := Copied(Copied(Copied(Copied(Copied(base, source, Access), source, Refresh), source, Expires), source,
                                LastRefreshedAt), source, LastRefreshError);
    forall f ensures SameField(WithCredentialOf(base, source), copied, f) {
    }
    SameEntries(WithCredentialOf(base, source), copied);
  }

  lemma CopyFive(base: Entry, source: Entry)
    ensures CopiedFields(base, source, CREDENTIAL_FIELDS) == WithCredentialOf(base, source)
  {
    hide Copied;
    CopyAll(base, source);
    var fields := CREDENTIAL_FIELDS;
    assert fields[..4][..3] == fields[..3] && fields[..3][..2] == fields[..2] && fields[..2][..1] == fields[..1];
    assert fields[..1][..0] == [];
    assert CopiedFields(base, source, fields[..1]) == Copied(base, source, Access);
    assert CopiedFields(base, source, fields[..2]) == Copied(CopiedFields(base, source, fields[..1]), source, Refresh);
    assert CopiedFields(base, source, fields[..3]) == Copied(CopiedFields(base, source, fields[..2]), source, Expires);
    assert CopiedFields(base, source, fields[..4])
        == Copied(CopiedFields(base, source, fields[..3]), source, LastRefreshedAt);
  }

  predicate SameField(a: Entry, b: Entry, f: Key) {
    (f in a <==> f in b) && (f in a ==> a[f] == b[f])
  }

  /** The five credential fields agree, in presence and in value. */
  ghost predicate SameCredential(a: Entry, b: Entry) {
    forall f :: IsCredential(f) ==> SameField(a, b, f)
  }

  // ---------------------------------------------------------------------
  // Which copy is newer
  // ---------------------------------------------------------------------

  const FUTURE_REFRESH_STAMP_TOLERANCE_MS: real := 5.0 * 60000.0

  function NumberOr(e: Entry, f: Key, default: real): real {
    if f in e && e[f].Num? then e[f].n else default
  }

  /** When the token was refreshed, or 0 for a time too far ahead to be believed. */
  function TrustedRefreshStamp(e: Entry, now: real): real {
    var stamp := NumberOr(e, LastRefreshedAt, 0.0);
    if stamp > now + FUTURE_REFRESH_STAMP_TOLERANCE_MS then 0.0 else stamp
  }

  function ErrorCheckedAt(e: Entry): real {
    NumberOr(GetObj(e, LastRefreshError), CheckedAt, 0.0)
  }

  predicate TokenFieldsMatch(a: Entry, b: Entry) {
    SameField(a, b, Access) && SameField(a, b, Refresh) && SameField(a, b, Expires) && SameField(a, b, LastRefreshedAt)
  }

  function SelectSameTokenState(existing: Entry, incoming: Entry): Entry {
    if !TokenFieldsMatch(existing, incoming) then incoming
    else if LastRefreshError !in incoming then existing
    else if LastRefreshError !in existing then incoming
    else if ErrorCheckedAt(incoming) > ErrorCheckedAt(existing) then incoming else existing
  }

  /** `a` has the later trusted stamp or, on equal stamps, the later expiry. */
  predicate Newer(a: Entry, b: Entry, now: real) {
    var stampA, stampB := TrustedRefreshStamp(a, now), TrustedRefreshStamp(b, now);
    stampA > stampB || (stampA == stampB && NumberOr(a, Expires, 0.0) > NumberOr(b, Expires, 0.0))
  }

  /** The copy whose credential is kept. */
  function NewerOf(existing: Entry, incoming: Entry, now: real): (source: Entry)
    ensures source == existing || source == incoming
    ensures !Newer(existing, source, now) && !Newer(incoming, source, now)
  {
    if Newer(incoming, existing, now) then incoming
    else if Newer(existing, incoming, now) then existing
    else SelectSameTokenState(existing, incoming)
  }

  // ---------------------------------------------------------------------
  // Merging the whole entry
  // ---------------------------------------------------------------------

  function QuotaCheckedAt(e: Entry): real {
    var quota := GetObj(e, Quota);
    Max(NumberOr(GetObj(quota, Primary), CheckedAt, 0.0), NumberOr(GetObj(quota, Secondary), CheckedAt, 0.0))
  }

  function Max(a: real, b: real): real {
    if a > b then a else b
  }

  predicate QuotaIsNewer(existing: Entry, incoming: Entry) {
    QuotaCheckedAt(existing) > QuotaCheckedAt(incoming)
  }

  /** The field's value in the merged entry comes from this copy. */
  function SourceOf(existing: Entry, incoming: Entry, now: real, f: Key): Entry {
    if IsCredential(f) then NewerOf(existing, incoming, now)
    else if f == Quota && QuotaIsNewer(existing, incoming) then existing
    else if f == LastQuotaRefreshError then (if QuotaIsNewer(existing, incoming) then existing else incoming)
    else if f == LastUsed && LastUsed in existing && existing[LastUsed].Num?
            && (LastUsed !in incoming || !incoming[LastUsed].Num? || existing[LastUsed].n > incoming[LastUsed].n)
    then existing
    else if f in incoming then incoming else existing
  }

  function Merged(existing: Entry, incoming: Entry, now: real): Entry {
    map f | f in existing.Keys + incoming.Keys && f in SourceOf(existing, incoming, now, f)
      :: SourceOf(existing, incoming, now, f)[f]
  }

  lemma MergedFrom(existing: Entry, incoming: Entry, now: real, base: Entry)
    requires forall f :: !IsCredential(f) ==> SameField(base, SourceOf(existing, incoming, now, f), f)
    ensures WithCredentialOf(base, NewerOf(existing, incoming, now)) == Merged(existing, incoming, now)
  {
    hide NewerOf;
    var merged, result := Merged(existing, incoming, now), WithCredentialOf(base, NewerOf(existing, incoming, now));
    forall f ensures SameField(result, merged, f) {
      MergedField(existing, incoming, now, f);
      if !IsCredential(f) { assert SameField(base, SourceOf(existing, incoming, now, f), f); }
    }
    SameEntries(result, merged);
  }

  lemma MergedField(existing: Entry, incoming: Entry, now: real, f: Key)
    ensures SameField(Merged(existing, incoming, now), SourceOf(existing, incoming, now, f), f)
  {
  }

  lemma SameEntries(a: Entry, b: Entry)
    requires forall f :: SameField(a, b, f)
    ensures a == b
  {
    forall f ensures f in a <==> f in b { assert SameField(a, b, f); }
    forall f | f in a ensures a[f] == b[f] { assert SameField(a, b, f); }
  }

  /** The merged record before the credential is settled. */
  function MergeBase(existing: Entry, incoming: Entry): Entry {
    var newer := QuotaIsNewer(existing, incoming);
    var spread := existing + incoming;
    var quota := if newer then Copied(Copied(spread, existing, Quota), existing, LastQuotaRefreshError) else spread;
    var quotaError := if !newer && LastQuotaRefreshError !in incoming then quota - {LastQuotaRefreshError} else quota;
    var refreshError := if LastRefreshError !in incoming then quotaError - {LastRefreshError} else quotaError;
    if LastUsed in existing && existing[LastUsed].Num?
       && (LastUsed !in incoming || !incoming[LastUsed].Num? || existing[LastUsed].n > incoming[LastUsed].n)
    then refreshError[LastUsed := existing[LastUsed]] else refreshError
  }

  lemma MergeBaseFields(existing: Entry, incoming: Entry, now: real)
    ensures forall f :: !IsCredential(f) ==>
              SameField(MergeBase(existing, incoming), SourceOf(existing, incoming, now, f), f)
  {
    hide NewerOf;
    hide QuotaIsNewer;
  }

  /** Saves an incoming entry over the stored one, if there is one. */
  method MergeAccountRuntimeState(existing: Option<Entry>, incoming: Entry, now: real) returns (result: Entry)
    ensures result == if existing.None? then incoming else Merged(existing.value, incoming, now)
  {
    if existing.None? { return incoming; }
    hide NewerOf;
    hide Merged;
    hide WithCredentialOf;
    hide SourceOf;
    var entry := existing.value;
    var existingQuotaIsNewer := QuotaIsNewer(entry, incoming);
    hide QuotaIsNewer;
    var merged := new Record(entry + incoming);
    if existingQuotaIsNewer {
      merged.CopyRuntimeField(entry, Quota);
      merged.CopyRuntimeField(entry, LastQuotaRefreshError);
    }
    if !existingQuotaIsNewer && LastQuotaRefreshError !in incoming {
      merged.fields := merged.fields - {LastQuotaRefreshError};
    }
    if LastRefreshError !in incoming {
      merged.fields := merged.fields - {LastRefreshError};
    }
    if LastUsed in entry && entry[LastUsed].Num?
       && (LastUsed !in incoming || !incoming[LastUsed].Num? || entry[LastUsed].n > incoming[LastUsed].n)
    {
      merged.fields := merged.fields[LastUsed := entry[LastUsed]];
    }
    assert merged.fields == MergeBase(entry, incoming);
    MergeBaseFields(entry, incoming, now);
    MergedFrom(entry, incoming, now, merged.fields);
    merged.ApplyNewerTokenState(entry, incoming, now);
    return merged.fields;
  }

  /** The incoming fields with the credential of the copy that holds the newer token. */
  method KeepNewerCredential(onDisk: Entry, incoming: Entry, now: real) returns (result: Entry)
    ensures result == WithCredentialOf(incoming, NewerOf(onDisk, incoming, now))
  {
    var chosen := new Record(incoming);
    chosen.ApplyNewerTokenState(onDisk, incoming, now);
    result := incoming;
    var i := 0;
    while i < |CREDENTIAL_FIELDS|
      invariant 0 <= i <= |CREDENTIAL_FIELDS|
      invariant result == CopiedFields(incoming, chosen.fields, CREDENTIAL_FIELDS[..i])
    {
      var field := CREDENTIAL_FIELDS[i];
      assert CREDENTIAL_FIELDS[..i + 1][..i] == CREDENTIAL_FIELDS[..i];
      if field in chosen.fields {
        result := result[field := chosen.fields[field]];
      } else {
        result := result - {field};
      }
      i := i + 1;
    }
    assert CREDENTIAL_FIELDS[..i] == CREDENTIAL_FIELDS;
    CopyFive(incoming, chosen.fields);
    CredentialTwice(incoming, NewerOf(onDisk, incoming, now));
  }

  lemma CredentialTwice(base: Entry, source: Entry)
    ensures WithCredentialOf(base, WithCredentialOf(base, source)) == WithCredentialOf(base, source)
  {
  }

  // ---------------------------------------------------------------------
  // Properties
  // ---------------------------------------------------------------------

  /** The merged entry has all five credential fields of one copy, and no copy has a newer token. */
  lemma MergeKeepsOneCredential(existing: Entry, incoming: Entry, now: real)
    ensures var merged := Merged(existing, incoming, now);
            && (SameCredential(merged, existing) || SameCredential(merged, incoming))
            && !Newer(existing, merged, now) && !Newer(incoming, merged, now)
  {
    var merged, source := Merged(existing, incoming, now), NewerOf(existing, incoming, now);
    forall f | IsCredential(f) ensures SameField(merged, source, f) {
      assert SourceOf(existing, incoming, now, f) == source;
    }
    assert SameField(merged, source, Expires) && SameField(merged, source, LastRefreshedAt);
  }

  /** Between copies equally new, another token is taken over; of the same token the later error is kept. */
  lemma TiesAreDecided(existing: Entry, incoming: Entry, now: real)
    requires !Newer(existing, incoming, now) && !Newer(incoming, existing, now)
    ensures var merged := Merged(existing, incoming, now);
            && (!TokenFieldsMatch(existing, incoming) ==> SameCredential(merged, incoming))
            && (TokenFieldsMatch(existing, incoming) ==>
                  && TokenFieldsMatch(merged, existing)
                  && (LastRefreshError in merged <==> LastRefreshError in existing || LastRefreshError in incoming)
                  && (LastRefreshError in existing && LastRefreshError in incoming ==>
                        ErrorCheckedAt(merged) == Max(ErrorCheckedAt(existing), ErrorCheckedAt(incoming))))
  {
    hide Merged;
    forall f | IsCredential(f) ensures SameField(Merged(existing, incoming, now), NewerOf(existing, incoming, now), f) {
      MergedField(existing, incoming, now, f);
    }
    assert NewerOf(existing, incoming, now) == SelectSameTokenState(existing, incoming);
    var merged, source := Merged(existing, incoming, now), SelectSameTokenState(existing, incoming);
    assert SameField(merged, source, Access) && SameField(merged, source, Refresh) && SameField(merged, source, Expires)
        && SameField(merged, source, LastRefreshedAt) && SameField(merged, source, LastRefreshError);
  }

  /** The later use and the later quota reading are kept, a reading together with its error; the rest is incoming's. */
  lemma MergeKeepsTheLatest(existing: Entry, incoming: Entry, now: real, f: Key)
    ensures var merged := Merged(existing, incoming, now);
            && (LastUsed in existing && LastUsed in incoming && existing[LastUsed].Num? && incoming[LastUsed].Num?
                ==> LastUsed in merged && merged[LastUsed] == Num(Max(existing[LastUsed].n, incoming[LastUsed].n)))
            && (Quota in incoming || QuotaCheckedAt(existing) >= 0.0
                ==> QuotaCheckedAt(merged) == Max(QuotaCheckedAt(existing), QuotaCheckedAt(incoming)))
            && SameField(merged, if QuotaIsNewer(existing, incoming) then existing else incoming, LastQuotaRefreshError)
            && (!IsCredential(f) && !f.LastUsed? && !f.Quota? && !f.LastQuotaRefreshError? ==>
                  SameField(merged, if f in incoming then incoming else existing, f))
  {
    hide Merged;
    hide NewerOf;
    MergeKeepsTheLaterQuota(existing, incoming, now);
    hide QuotaCheckedAt;
    MergedField(existing, incoming, now, LastUsed);
    MergedField(existing, incoming, now, LastQuotaRefreshError);
    MergedField(existing, incoming, now, f);
  }

  lemma MergeKeepsTheLaterQuota(existing: Entry, incoming: Entry, now: real)
    ensures Quota in incoming || QuotaCheckedAt(existing) >= 0.0 ==>
              QuotaCheckedAt(Merged(existing, incoming, now)) == Max(QuotaCheckedAt(existing), QuotaCheckedAt(incoming))
  {
    hide Merged;
    hide NewerOf;
    MergedField(existing, incoming, now, Quota);
    assert SourceOf(existing, incoming, now, Quota)
        == if QuotaIsNewer(existing, incoming) || Quota !in incoming then existing else incoming;
  }

  // ---------------------------------------------------------------------
  // The merge by what the copies say
  // ---------------------------------------------------------------------

  /** The time a copy gives in the field, 0 if it gives none. */
  predicate Tells(e: Entry, f: Key, time: real) {
    if f in e && e[f].Num? then time == e[f].n else time == 0.0
  }

  /** When the copy says its token was refreshed, if that is at most five minutes ahead; else 0. */
  ghost predicate RefreshedAt(e: Entry, now: real, time: real) {
    exists told: real :: Tells(e, LastRefreshedAt, told) && (time == if told - now <= 300_000.0 then told else 0.0)
  }

  /** The result has access and refresh token, expiry, stamp and refresh error as the copy has them. */
  predicate HasTokenOf(result: Entry, copy: Entry) {
    && SameField(result, copy, Access)
    && SameField(result, copy, Refresh)
    && SameField(result, copy, Expires)
    && SameField(result, copy, LastRefreshedAt)
    && SameField(result, copy, LastRefreshError)
  }

  /** When the copy's refresh error was seen. */
  predicate ErrorSeenAt(e: Entry, time: real) {
    if LastRefreshError in e && e[LastRefreshError].Obj?
    then Tells(e[LastRefreshError].fields, CheckedAt, time) else time == 0.0
  }

  /**
   Which copy the token comes from: the one refreshed later, then the one that expires later, then for another
   token the incoming copy and for the same token the copy whose error was seen later.
   */
  lemma TokenComesFrom(existing: Entry, incoming: Entry, now: real, oldTime: real, newTime: real, oldEnd: real,
                       newEnd: real)
    requires RefreshedAt(existing, now, oldTime) && RefreshedAt(incoming, now, newTime)
    requires Tells(existing, Expires, oldEnd) && Tells(incoming, Expires, newEnd)
    ensures var merged := Merged(existing, incoming, now);
            && (newTime > oldTime ==> HasTokenOf(merged, incoming))
            && (oldTime > newTime ==> HasTokenOf(merged, existing))
            && (oldTime == newTime && newEnd > oldEnd ==> HasTokenOf(merged, incoming))
            && (oldTime == newTime && oldEnd > newEnd ==> HasTokenOf(merged, existing))
    ensures oldTime == newTime && oldEnd == newEnd ==>
              EqualTokenComesFrom(existing, incoming, Merged(existing, incoming, now))
  {
    hide Merged;
    MergeHasTokenOf(existing, incoming, now);
  }

  /** Of equally new copies. */
  ghost predicate EqualTokenComesFrom(existing: Entry, incoming: Entry, merged: Entry) {
    var sameToken := forall f :: f in {Access, Refresh, Expires, LastRefreshedAt} ==> SameField(existing, incoming, f);
    && (!sameToken ==> HasTokenOf(merged, incoming))
    && (sameToken && LastRefreshError !in incoming ==> HasTokenOf(merged, existing))
    && (sameToken && LastRefreshError in incoming && LastRefreshError !in existing ==> HasTokenOf(merged, incoming))
    && (sameToken && LastRefreshError in incoming && LastRefreshError in existing ==>
          forall oldTime, newTime :: ErrorSeenAt(existing, oldTime) && ErrorSeenAt(incoming, newTime) ==>
            if newTime > oldTime then HasTokenOf(merged, incoming) else HasTokenOf(merged, existing))
  }

  lemma MergeHasTokenOf(existing: Entry, incoming: Entry, now: real)
    ensures HasTokenOf(Merged(existing, incoming, now), NewerOf(existing, incoming, now))
  {
    hide Merged;
    hide NewerOf;
    hide SameField;
    MergedField(existing, incoming, now, Access);
    MergedField(existing, incoming, now, Refresh);
    MergedField(existing, incoming, now, Expires);
    MergedField(existing, incoming, now, LastRefreshedAt);
    MergedField(existing, incoming, now, LastRefreshError);
  }

  lemma TokenTaken(base: Entry, source: Entry, f: Key)
    ensures HasTokenOf(WithCredentialOf(base, source), source)
    ensures f !in {Access, Refresh, Expires, LastRefreshedAt, LastRefreshError} ==>
              SameField(WithCredentialOf(base, source), base, f)
  {
  }

  lemma SameToken(a: Entry, b: Entry, source: Entry)
    requires HasTokenOf(a, source) && HasTokenOf(b, source)
    ensures HasTokenOf(a, b)
  {
  }

  /** When one of the copy's two quota windows was read. */
  predicate WindowReadAt(e: Entry, window: Key, time: real) {
    if Quota in e && e[Quota].Obj? && window in e[Quota].fields && e[Quota].fields[window].Obj?
    then Tells(e[Quota].fields[window].fields, CheckedAt, time) else time == 0.0
  }

  /** One of the stored copy's windows was read later than both of the incoming copy's. */
  ghost predicate HasLaterReading(existing: Entry, incoming: Entry) {
    exists time: real ::
      && (WindowReadAt(existing, Primary, time) || WindowReadAt(existing, Secondary, time))
      && forall other: real ::
           WindowReadAt(incoming, Primary, other) || WindowReadAt(incoming, Secondary, other) ==> other < time
  }

  lemma {:induction false} LaterReadingIsNewer(existing: Entry, incoming: Entry)
    ensures HasLaterReading(existing, incoming) <==> QuotaIsNewer(existing, incoming)
  {
    assert WindowReadAt(incoming, Primary, NumberOr(GetObj(GetObj(incoming, Quota), Primary), CheckedAt, 0.0));
    assert WindowReadAt(incoming, Secondary, NumberOr(GetObj(GetObj(incoming, Quota), Secondary), CheckedAt, 0.0));
    var readAt := QuotaCheckedAt(existing);
    assert QuotaIsNewer(existing, incoming) ==>
             WindowReadAt(existing, Primary, readAt) || WindowReadAt(existing, Secondary, readAt);
  }

  lemma SourcesAre(existing: Entry, incoming: Entry, now: real, f: Key)
    ensures SourceOf(existing, incoming, now, Quota)
         == if QuotaIsNewer(existing, incoming) || Quota !in incoming then existing else incoming
    ensures SourceOf(existing, incoming, now, LastQuotaRefreshError)
         == if QuotaIsNewer(existing, incoming) then existing else incoming
    ensures LastUsed in existing && existing[LastUsed].Num?
            && (LastUsed in incoming && incoming[LastUsed].Num? ==> incoming[LastUsed].n < existing[LastUsed].n)
            ==> SourceOf(existing, incoming, now, LastUsed) == existing
    ensures LastUsed in incoming && incoming[LastUsed].Num?
            && (LastUsed in existing && existing[LastUsed].Num? ==> existing[LastUsed].n <= incoming[LastUsed].n)
            ==> SourceOf(existing, incoming, now, LastUsed) == incoming
    ensures f !in {Access, Refresh, Expires, LastRefreshedAt, LastRefreshError}
            && f !in {LastUsed, Quota, LastQuotaRefreshError}
            ==> SourceOf(existing, incoming, now, f) == if f in incoming then incoming else existing
  {
    hide NewerOf;
    hide QuotaIsNewer;
  }

  /** Where everything but the token comes from. */
  lemma OtherFieldsComeFrom(existing: Entry, incoming: Entry, now: real, f: Key)
    ensures var merged := Merged(existing, incoming, now);
            var later := HasLaterReading(existing, incoming);
            var token := {Access, Refresh, Expires, LastRefreshedAt, LastRefreshError};
            && SameField(merged, if later || Quota !in incoming then existing else incoming, Quota)
            && SameField(merged, if later then existing else incoming, LastQuotaRefreshError)
            && (LastUsed in existing && existing[LastUsed].Num?
                && (LastUsed in incoming && incoming[LastUsed].Num? ==>
                      incoming[LastUsed].n < existing[LastUsed].n)
                ==> SameField(merged, existing, LastUsed))
            && (LastUsed in incoming && incoming[LastUsed].Num?
                && (LastUsed in existing && existing[LastUsed].Num? ==>
                      existing[LastUsed].n <= incoming[LastUsed].n)
                ==> SameField(merged, incoming, LastUsed))
            && (f !in token && f !in {LastUsed, Quota, LastQuotaRefreshError} ==>
                  SameField(merged, if f in incoming then incoming else existing, f))
  {
    hide Merged;
    hide NewerOf;
    LaterReadingIsNewer(existing, incoming);
    hide QuotaIsNewer;
    hide HasLaterReading;
    SourcesAre(existing, incoming, now, f);
    MergedField(existing, incoming, now, Quota);
    MergedField(existing, incoming, now, LastUsed);
    MergedField(existing, incoming, now, LastQuotaRefreshError);
    MergedField(existing, incoming, now, f);
    hide SourceOf;
    hide SameField;
  }

  /** Saving the same entry again changes nothing. */
  lemma {:induction false} MergeIsIdempotent(existing: Entry, incoming: Entry, now: real)
    ensures var merged := Merged(existing, incoming, now); Merged(merged, incoming, now) == merged
  {
    hide Merged;
    hide NewerOf;
    var merged := Merged(existing, incoming, now);
    NewerTwice(existing, incoming, now);
    QuotaTwice(existing, incoming, now);
    forall f ensures SameField(Merged(merged, incoming, now), merged, f) {
      MergedField(existing, incoming, now, f);
      MergedField(merged, incoming, now, f);
      if IsCredential(f) { assert SameField(NewerOf(merged, incoming, now), merged, f); }
    }
    SameEntries(Merged(merged, incoming, now), merged);
  }

  lemma QuotaTwice(existing: Entry, incoming: Entry, now: real)
    ensures QuotaIsNewer(Merged(existing, incoming, now), incoming) == QuotaIsNewer(existing, incoming)
  {
    hide Merged;
    hide NewerOf;
    MergedField(existing, incoming, now, Quota);
  }

  lemma NewerTwice(existing: Entry, incoming: Entry, now: real)
    ensures var merged := Merged(existing, incoming, now); SameCredential(NewerOf(merged, incoming, now), merged)
  {
    hide Merged;
    var merged, source := Merged(existing, incoming, now), NewerOf(existing, incoming, now);
    forall f | IsCredential(f) ensures SameField(merged, source, f) { MergedField(existing, incoming, now, f); }
    assert SameField(merged, source, Expires) && SameField(merged, source, LastRefreshedAt)
        && SameField(merged, source, Access) && SameField(merged, source, Refresh)
        && SameField(merged, source, LastRefreshError);
  }

  /** A copy saved at a moment. */
  datatype Save = Save(entry: Entry, now: real)

  /** Copies saved one after the other. */
  function SavedAll(existing: Entry, saves: seq<Save>): Entry {
    if saves == [] then existing
    else Merged(SavedAll(existing, saves[..|saves| - 1]), saves[|saves| - 1].entry, saves[|saves| - 1].now)
  }

  /** A copy's stamp is believed, or disbelieved, at every save as it is at `at`. */
  ghost predicate Steady(e: Entry, saves: seq<Save>, at: real) {
    forall k :: 0 <= k < |saves| ==> TrustedRefreshStamp(e, saves[k].now) == TrustedRefreshStamp(e, at)
  }

  ghost predicate AllSteady(existing: Entry, saves: seq<Save>, at: real) {
    Steady(existing, saves, at) && forall i :: 0 <= i < |saves| ==> Steady(saves[i].entry, saves, at)
  }

  /** A stamp that is believed at the first of several saves, in order of time, is believed at all of them. */
  lemma BelievedIsSteady(existing: Entry, saves: seq<Save>, at: real)
    requires forall i, j :: 0 <= i < j < |saves| ==> saves[i].now <= saves[j].now <= at
    requires saves != [] && saves[0].now <= at
    requires NumberOr(existing, LastRefreshedAt, 0.0) <= saves[0].now + FUTURE_REFRESH_STAMP_TOLERANCE_MS
    requires forall i :: 0 <= i < |saves| ==>
               NumberOr(saves[i].entry, LastRefreshedAt, 0.0) <= saves[0].now + FUTURE_REFRESH_STAMP_TOLERANCE_MS
    ensures AllSteady(existing, saves, at)
  {
    forall k | 0 <= k < |saves| ensures saves[0].now <= saves[k].now <= at {
      assert k > 0 ==> saves[0].now <= saves[k].now <= at;
    }
  }

  lemma NotNewerTransitive(a: Entry, b: Entry, c: Entry, now: real)
    requires !Newer(a, b, now) && !Newer(b, c, now)
    ensures !Newer(a, c, now)
  {
  }

  lemma NewerSame(a: Entry, b: Entry, c: Entry, now: real)
    requires SameCredential(a, b)
    ensures Newer(a, c, now) == Newer(b, c, now)
  {
    assert SameField(a, b, Expires) && SameField(a, b, LastRefreshedAt);
  }

  /** Two copies are compared at a save as they are at the later moment. */
  lemma SteadyCompares(a: Entry, b: Entry, now: real, at: real)
    requires TrustedRefreshStamp(a, now) == TrustedRefreshStamp(a, at)
    requires TrustedRefreshStamp(b, now) == TrustedRefreshStamp(b, at)
    ensures Newer(a, b, now) == Newer(a, b, at)
  {
  }

  lemma SameCredentialStamps(a: Entry, b: Entry, now: real)
    requires SameCredential(a, b)
    ensures TrustedRefreshStamp(a, now) == TrustedRefreshStamp(b, now)
  {
    assert SameField(a, b, LastRefreshedAt);
  }

  /**
   However many copies are saved, and whenever, the credential left is that of one of them; and if
   their stamps are judged alike throughout, none of them is newer.
   */
  lemma {:induction false} SavesKeepTheNewest(existing: Entry, saves: seq<Save>, at: real)
    ensures var saved := SavedAll(existing, saves);
            && (SameCredential(saved, existing)
                || exists k :: 0 <= k < |saves| && SameCredential(saved, saves[k].entry))
            && (AllSteady(existing, saves, at) ==>
                  && !Newer(existing, saved, at)
                  && forall k :: 0 <= k < |saves| ==> !Newer(saves[k].entry, saved, at))
    decreases |saves|
  {
    hide Newer;
    hide Merged;
    hide TrustedRefreshStamp;
    if saves == [] {
      NotNewerSelf(existing, at);
    } else {
      var n := |saves| - 1;
      var front, last := saves[..n], saves[n];
      var before := SavedAll(existing, front);
      var saved := Merged(before, last.entry, last.now);
      SavesKeepTheNewest(existing, front, at);
      MergeKeepsOneCredential(before, last.entry, last.now);
      SameCredentialTransitive(saved, before, existing);
      forall k | 0 <= k < n && SameCredential(before, front[k].entry)
        ensures SameCredential(saved, before) ==> SameCredential(saved, saves[k].entry)
      {
        SameCredentialTransitive(saved, before, saves[k].entry);
      }
      if AllSteady(existing, saves, at) { LastSaveKeepsTheNewest(existing, saves, at); }
    }
  }

  lemma {:induction false} LastSaveKeepsTheNewest(existing: Entry, saves: seq<Save>, at: real)
    requires saves != [] && AllSteady(existing, saves, at)
    requires var front := saves[..|saves| - 1];
             var before := SavedAll(existing, front);
             && (SameCredential(before, existing)
                 || exists k :: 0 <= k < |front| && SameCredential(before, front[k].entry))
             && !Newer(existing, before, at) && forall k :: 0 <= k < |front| ==> !Newer(front[k].entry, before, at)
    ensures !Newer(existing, SavedAll(existing, saves), at)
    ensures forall k :: 0 <= k < |saves| ==> !Newer(saves[k].entry, SavedAll(existing, saves), at)
  {
    hide Newer;
    hide Merged;
    hide TrustedRefreshStamp;
    var n := |saves| - 1;
    var before, last := SavedAll(existing, saves[..n]), saves[n];
    var saved := Merged(before, last.entry, last.now);
    MergeKeepsOneCredential(before, last.entry, last.now);
    assert forall k :: 0 <= k < n ==> saves[..n][k] == saves[k];
    SteadyBefore(existing, saves, at, before);
    if SameCredential(saved, before) {
      SameCredentialStamps(saved, before, last.now);
      SameCredentialStamps(saved, before, at);
    } else {
      SameCredentialStamps(saved, last.entry, last.now);
      SameCredentialStamps(saved, last.entry, at);
    }
    SteadyCompares(before, saved, last.now, at);
    SteadyCompares(last.entry, saved, last.now, at);
    NotNewerTransitive(existing, before, saved, at);
    forall k | 0 <= k < n ensures !Newer(saves[k].entry, saved, at) {
      assert saves[..n][k] == saves[k];
      NotNewerTransitive(saves[k].entry, before, saved, at);
    }
  }

  lemma SteadyBefore(existing: Entry, saves: seq<Save>, at: real, before: Entry)
    requires saves != [] && AllSteady(existing, saves, at)
    requires SameCredential(before, existing)
          || exists k :: 0 <= k < |saves| && SameCredential(before, saves[k].entry)
    ensures var now := saves[|saves| - 1].now; TrustedRefreshStamp(before, now) == TrustedRefreshStamp(before, at)
  {
    hide TrustedRefreshStamp;
    var now := saves[|saves| - 1].now;
    if SameCredential(before, existing) {
      SameCredentialStamps(before, existing, now);
      SameCredentialStamps(before, existing, at);
    } else {
      var k :| 0 <= k < |saves| && SameCredential(before, saves[k].entry);
      assert Steady(saves[k].entry, saves, at);
      SameCredentialStamps(before, saves[k].entry, now);
      SameCredentialStamps(before, saves[k].entry, at);
    }
  }

  /** One save leaves a credential that neither copy is newer than at the later moment. */
  ghost predicate KeepsTheNewest(existing: Entry, save: Save, at: real) {
    var saved := SavedAll(existing, [save]);
    !Newer(existing, saved, at) && !Newer(save.entry, saved, at)
  }

  /**
   A copy that is judged differently at a save and at a later moment may cost the newest credential: saves of
   copies without a stamp over it all keep the newest exactly when it is judged alike.
   */
  lemma {:induction false} SteadinessIsNeeded(existing: Entry, now: real, at: real)
    ensures (forall other :: LastRefreshedAt !in other ==> KeepsTheNewest(existing, Save(other, now), at))
       <==> TrustedRefreshStamp(existing, now) == TrustedRefreshStamp(existing, at)
  {
    if TrustedRefreshStamp(existing, now) == TrustedRefreshStamp(existing, at) {
      forall other: Entry | LastRefreshedAt !in other ensures KeepsTheNewest(existing, Save(other, now), at) {
        SavesKeepTheNewest(existing, [Save(other, now)], at);
        assert [Save(other, now)][0] == Save(other, now);
      }
    } else {
      var expires := NumberOr(existing, Expires, 0.0);
      var later := NumberOr(existing, LastRefreshedAt, 0.0) > 0.0;
      var other: Entry := map[Expires := Num(if later then expires + 1.0 else expires - 1.0)];
      OneSave(existing, other, now, at);
      assert LastRefreshedAt !in other && !KeepsTheNewest(existing, Save(other, now), at);
    }
  }

  /** A copy compared one way at the save and the other way later is lost by the one save. */
  lemma OneSave(existing: Entry, other: Entry, now: real, at: real)
    ensures Newer(existing, other, now) && Newer(other, existing, at) ==>
              !KeepsTheNewest(existing, Save(other, now), at)
    ensures Newer(other, existing, now) && Newer(existing, other, at) ==>
              !KeepsTheNewest(existing, Save(other, now), at)
  {
    hide Newer;
    hide Merged;
    var saves := [Save(other, now)];
    assert saves[..0] == [];
    assert SavedAll(existing, []) == existing;
    assert SavedAll(existing, saves) == Merged(existing, other, now);
    MergeKeepsOneCredential(existing, other, now);
    NewerAsymmetric(existing, other, now);
    SameJudged(Merged(existing, other, now), existing, other, now);
    SameJudged(Merged(existing, other, now), other, existing, now);
    SameJudged(Merged(existing, other, now), existing, other, at);
    SameJudged(Merged(existing, other, now), other, existing, at);
  }

  lemma SameJudged(a: Entry, b: Entry, c: Entry, now: real)
    ensures SameCredential(a, b) ==> Newer(a, c, now) == Newer(b, c, now) && Newer(c, a, now) == Newer(c, b, now)
  {
    if SameCredential(a, b) { assert SameField(a, b, Expires) && SameField(a, b, LastRefreshedAt); }
  }

  lemma NewerAsymmetric(a: Entry, b: Entry, now: real)
    ensures !(Newer(a, b, now) && Newer(b, a, now))
  {
  }

  lemma NotNewerSelf(e: Entry, now: real)
    ensures !Newer(e, e, now)
  {
  }

  lemma SameCredentialTransitive(a: Entry, b: Entry, c: Entry)
    ensures SameCredential(a, b) && SameCredential(b, c) ==> SameCredential(a, c)
  {
    if SameCredential(a, b) && SameCredential(b, c) {
      forall f | IsCredential(f) ensures SameField(a, c, f) { assert SameField(a, b, f) && SameField(b, c, f); }
    }
  }

  function Copies(saves: seq<Save>): seq<Entry> {
    seq(|saves|, i requires 0 <= i < |saves| => saves[i].entry)
  }

  /** Neither the order in which copies are saved nor the times decide how new the credential left is. */
  lemma SaveOrderIsIrrelevant(existing: Entry, a: seq<Save>, b: seq<Save>, at: real)
    requires multiset(Copies(a)) == multiset(Copies(b))
    requires AllSteady(existing, a, at) && AllSteady(existing, b, at)
    ensures !Newer(SavedAll(existing, a), SavedAll(existing, b), at)
  {
    hide Newer;
    hide SavedAll;
    hide SameCredential;
    hide AllSteady;
    SavesKeepTheNewest(existing, a, at);
    SavesKeepTheNewest(existing, b, at);
    var saved := SavedAll(existing, a);
    if SameCredential(saved, existing) {
      NewerSame(saved, existing, SavedAll(existing, b), at);
    } else {
      var k :| 0 <= k < |a| && SameCredential(saved, a[k].entry);
      assert Copies(a)[k] == a[k].entry && a[k].entry in multiset(Copies(b));
      var j :| 0 <= j < |b| && Copies(b)[j] == a[k].entry;
      assert !Newer(b[j].entry, SavedAll(existing, b), at);
      NewerSame(saved, a[k].entry, SavedAll(existing, b), at);
    }
  }

  /** A stamp ten minutes ahead loses to an older one, and is the newer by the time it is believed. */
  lemma DisbelievedStampIsNewerLater()
    ensures var ahead: Entry := map[LastRefreshedAt := Num(600000.0)];
            var older: Entry := map[LastRefreshedAt := Num(1.0)];
            && SavedAll(ahead, [Save(older, 0.0)]) == older
            && Newer(ahead, older, 600000.0)
  {
    var ahead: Entry := map[LastRefreshedAt := Num(600000.0)];
    var older: Entry := map[LastRefreshedAt := Num(1.0)];
    var saves := [Save(older, 0.0)];
    assert saves[..0] == [];
    hide Merged;
    forall f ensures SameField(Merged(ahead, older, 0.0), older, f) { MergedField(ahead, older, 0.0, f); }
    SameEntries(Merged(ahead, older, 0.0), older);
    assert SavedAll(ahead, saves) == Merged(SavedAll(ahead, []), older, 0.0);
  }
}
