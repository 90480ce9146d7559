/** What the readings of the service mean, item by item: the reference for `Codex`. */
module CreditRules {
  import opened Basics
  import opened Sorting
  import opened Text
  import opened Records
  import opened Codex

  // ------------------------------------------------------------ acceptance

  // The item is listed as available.
  predicate Offers(item: RawCredit) {
    TrimSpace(item.status) == "available"
  }

  function OfferPlaces(items: seq<RawCredit>): set<int> {
    set i | 0 <= i < |items| && Offers(items[i])
  }

  // Which answers are accepted: every status is one of three; every available item has an ID and a stamp that reads
  // as an instant after `now`; no two of them share an ID; and the count says how many they are.
  lemma AcceptsIff(items: seq<RawCredit>, count: Option<int>, now: Time)
    ensures Accepts(items, count, now) <==>
            && (forall item | item in items ::
                  TrimSpace(item.status) == "available" || TrimSpace(item.status) == "redeeming"
                  || TrimSpace(item.status) == "redeemed")
            && (forall item | item in items && Offers(item) ::
                  && TrimSpace(item.id) != "" && item.expiresAt.Some? && TrimSpace(item.expiresAt.value.text) != ""
                  && item.expiresAt.value.instant.Some? && now < item.expiresAt.value.instant.value)
            && (forall i, j | 0 <= i < j < |items| && Offers(items[i]) && Offers(items[j]) ::
                  TrimSpace(items[i].id) != TrimSpace(items[j].id))
            && count == Some(|OfferPlaces(items)|)
  {
    CountOffers(items);
    DistinctOffers(items);
  }

  lemma PlacesNext(items: seq<RawCredit>, last: RawCredit)
    ensures OfferPlaces(items + [last]) == OfferPlaces(items) + (if Offers(last) then {|items|} else {})
  {
    var all := items + [last];
    assert forall i | 0 <= i < |items| :: all[i] == items[i];
    assert all[|items|] == last;
  }

  lemma {:induction false} CountOffers(items: seq<RawCredit>)
    ensures |AvailableIds(items)| == |OfferPlaces(items)|
  {
    if items != [] {
      var n := |items| - 1;
      assert items == items[..n] + [items[n]];
      CountOffers(items[..n]);
      PlacesNext(items[..n], items[n]);
    }
  }

  lemma {:induction false} OfferedId(items: seq<RawCredit>, id: string)
    ensures id in AvailableIds(items) <==> exists i :: 0 <= i < |items| && Offers(items[i]) && TrimSpace(items[i].id) == id
  {
    if items != [] {
      var n := |items| - 1;
      OfferedId(items[..n], id);
      assert forall i | 0 <= i < n :: items[..n][i] == items[i];
    }
  }

  predicate NoneRepeats(items: seq<RawCredit>) {
    forall i, j | 0 <= i < j < |items| && Offers(items[i]) && Offers(items[j]) ::
      TrimSpace(items[i].id) != TrimSpace(items[j].id)
  }

  lemma LastRepeats(items: seq<RawCredit>, last: RawCredit)
    ensures NoneRepeats(items + [last]) <==>
            NoneRepeats(items)
            && (Offers(last) ==> forall i | 0 <= i < |items| && Offers(items[i]) :: TrimSpace(items[i].id) != TrimSpace(last.id))
  {
    var all := items + [last];
    assert forall i | 0 <= i < |items| :: all[i] == items[i];
    assert all[|items|] == last;
  }

  lemma {:induction false} DistinctOffers(items: seq<RawCredit>)
    ensures Distinct(AvailableIds(items)) <==> NoneRepeats(items)
  {
    if items != [] {
      var n := |items| - 1;
      var front, last := items[..n], items[n];
      assert items == front + [last];
      DistinctOffers(front);
      LastRepeats(front, last);
      if Offers(last) {
        var id, ids := TrimSpace(last.id), AvailableIds(front);
        assert AvailableIds(items) == ids + [id];
        OfferedId(front, id);
        LastApart(ids, id);
      } else {
        assert AvailableIds(items) == AvailableIds(front);
      }
    }
  }

  lemma LastApart(s: seq<string>, x: string)
    ensures Distinct(s + [x]) <==> Distinct(s) && x !in s
  {
    var t := s + [x];
    assert forall i | 0 <= i < |s| :: t[i] == s[i];
    assert t[|s|] == x;
  }

  // The credits the engine may spend are the available items of the right type, with trimmed IDs.
  lemma {:induction false} UsableIff(items: seq<RawCredit>, c: Credit)
    ensures c in Usable(items) <==>
            exists item | item in items ::
              && Offers(item) && TrimSpace(item.resetType) == "codex_rate_limits"
              && item.expiresAt.Some? && item.expiresAt.value.instant == Some(c.expiresAt)
              && c.id == TrimSpace(item.id) && c.ref == Hash("credit", c.id)
  {
    if items != [] {
      var n := |items| - 1;
      assert items == items[..n] + [items[n]];
      UsableIff(items[..n], c);
    }
  }

  // Which usage answers are accepted.
  lemma ReadableUsageIff(raw: RawUsage)
    ensures ReadableUsage(raw) <==>
            && raw.rateLimit.Some? && raw.rateLimit.value.allowed.Some? && raw.rateLimit.value.limitReached.Some?
            && (raw.rateLimit.value.primary.Some? || raw.rateLimit.value.secondary.Some?)
            && (forall w | w in [raw.rateLimit.value.primary, raw.rateLimit.value.secondary] && w.Some? ::
                  && w.value.usedPercent.Some? && 0.0 <= w.value.usedPercent.value <= 100.0
                  && w.value.resetAt.Some? && 0 < w.value.resetAt.value)
            && (raw.resetCredits.Some? ==> raw.resetCredits.value.Some? && 0 <= raw.resetCredits.value.value)
  {
    if raw.rateLimit.Some? {
      var windows := [raw.rateLimit.value.primary, raw.rateLimit.value.secondary];
      assert windows[0] in windows && windows[1] in windows;
    }
  }

  // ----------------------------------------------------- order and choice

  // In a list the engine relies on, whatever expires first comes first, and by ID what expires together.
  lemma ListedInOrder(list: CreditList, now: Time, i: nat, j: nat)
    requires Listing(list, now) && i < j < |list.available|
    ensures var a, b := list.available[i], list.available[j];
            a.expiresAt < b.expiresAt || (a.expiresAt == b.expiresAt && Less(a.id, b.id))
  {
    assert Before(list.available[i], list.available[j]);
  }

  // `c` is the credit to spend: of those without a tombstone it expires first, or with the least ID at a tie.
  predicate Foremost(c: Credit, credits: seq<Credit>, tombstones: map<string, Time>) {
    && c in credits && Hash("ref", c.id) !in tombstones
    && forall d | d in credits && Hash("ref", d.id) !in tombstones && d != c ::
         c.expiresAt < d.expiresAt || (c.expiresAt == d.expiresAt && Less(c.id, d.id))
  }

  lemma FirstUsableIff(list: CreditList, now: Time, tombstones: map<string, Time>, c: Credit)
    requires Listing(list, now)
    ensures FirstUsable(list.available, tombstones) == Some(c) <==> Foremost(c, list.available, tombstones)
  {
    var first := FirstUsable(list.available, tombstones);
    if first.Some? {
      forall d | d in list.available && Hash("ref", d.id) !in tombstones && d != first.value
        ensures first.value.expiresAt < d.expiresAt
                || (first.value.expiresAt == d.expiresAt && Less(first.value.id, d.id))
      {
        FirstUsableIsLeast(list.available, tombstones, d);
      }
      if Foremost(c, list.available, tombstones) && c != first.value {
        LessAsymmetric(first.value.id, c.id);
      }
    }
  }
}
