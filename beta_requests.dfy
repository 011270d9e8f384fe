/** The logic of the beta-request administration screens
    (Shared/Administration/BetaRequestsList.swift): the three buckets of the list, the
    lookup of the request a detail view shows, and the body of the "mark as fulfilled /
    not fulfilled" update. Dates are whole seconds. */
module BetaRequests {
  import opened Wrappers

  type UUID = string

  datatype BetaRequest = BetaRequest(
    id: UUID,
    email: string,
    registrationToken: string,
    requestedAt: int,
    sentAt: Option<int>,
    isFulfilled: bool)

  datatype BetaRequestUpdateBody = BetaRequestUpdateBody(sentAt: Option<int>, isFulfilled: bool)

  // ---------------------------------------------------------------------------
  // Buckets

  predicate IsUnfulfilled(r: BetaRequest)
  {
    !r.isFulfilled && r.sentAt.None?
  }

  predicate IsEmailSent(r: BetaRequest)
  {
    !r.isFulfilled && r.sentAt.Some?
  }

  predicate IsFulfilled(r: BetaRequest)
  {
    r.isFulfilled
  }

  /** Swift's `filter`: the elements satisfying `p`, in their original order. */
  function Filter(s: seq<BetaRequest>, p: BetaRequest -> bool): (r: seq<BetaRequest>)
    ensures |r| <= |s|
    ensures forall i :: 0 <= i < |r| ==> p(r[i])
    ensures forall x :: x in r <==> x in s && p(x)
  {
    if s == [] then []
    else (if p(s[0]) then [s[0]] else []) + Filter(s[1..], p)
  }

  function Unfulfilled(rs: seq<BetaRequest>): (u: seq<BetaRequest>)
    ensures forall r :: r in u <==> r in rs && !r.isFulfilled && r.sentAt.None?
  {
    Filter(rs, IsUnfulfilled)
  }

  function EmailSent(rs: seq<BetaRequest>): (e: seq<BetaRequest>)
    ensures forall r :: r in e <==> r in rs && !r.isFulfilled && r.sentAt.Some?
  {
    Filter(rs, IsEmailSent)
  }

  function Fulfilled(rs: seq<BetaRequest>): (f: seq<BetaRequest>)
    ensures forall r :: r in f <==> r in rs && r.isFulfilled
  {
    Filter(rs, IsFulfilled)
  }

  /** Each request satisfies exactly one bucket's condition. */
  lemma ExactlyOneBucket(r: BetaRequest)
    ensures IsUnfulfilled(r) || IsEmailSent(r) || IsFulfilled(r)
    ensures !(IsUnfulfilled(r) && IsEmailSent(r))
    ensures !(IsUnfulfilled(r) && IsFulfilled(r))
    ensures !(IsEmailSent(r) && IsFulfilled(r))
  {
  }

  lemma FilterHead(rs: seq<BetaRequest>, p: BetaRequest -> bool)
    requires rs != []
    ensures multiset(Filter(rs, p)) == (if p(rs[0]) then multiset{rs[0]} else multiset{}) + multiset(Filter(rs[1..], p))
  {
  }

  lemma MultisetHead(rs: seq<BetaRequest>)
    requires rs != []
    ensures multiset(rs) == multiset{rs[0]} + multiset(rs[1..])
  {
    assert rs == [rs[0]] + rs[1..];
  }

  lemma MultisetRegroup<T>(x: multiset<T>, a: multiset<T>, b: multiset<T>, c: multiset<T>)
    ensures (x + a) + b + c == x + (a + b + c)
    ensures a + (x + b) + c == x + (a + b + c)
    ensures a + b + (x + c) == x + (a + b + c)
  {
  }

  /** Filtering by three conditions of which each element meets exactly one splits the
      list into three parts that together hold every element as often as the list does. */
  lemma {:induction false} FilterPartition(rs: seq<BetaRequest>, p: BetaRequest -> bool, q: BetaRequest -> bool, w: BetaRequest -> bool)
    requires forall r :: (p(r) || q(r) || w(r)) && !(p(r) && q(r)) && !(p(r) && w(r)) && !(q(r) && w(r))
    ensures multiset(Filter(rs, p)) + multiset(Filter(rs, q)) + multiset(Filter(rs, w)) == multiset(rs)
  {
    if rs != [] {
      var tail := rs[1..];
      FilterPartition(tail, p, q, w);
      FilterHead(rs, p);
      FilterHead(rs, q);
      FilterHead(rs, w);
      MultisetHead(rs);
      MultisetRegroup(multiset{rs[0]}, multiset(Filter(tail, p)), multiset(Filter(tail, q)), multiset(Filter(tail, w)));
    }
  }

  /** Together the three buckets hold every request exactly as often as the list does. */
  lemma BucketsCoverList(rs: seq<BetaRequest>)
    ensures multiset(Unfulfilled(rs)) + multiset(EmailSent(rs)) + multiset(Fulfilled(rs)) == multiset(rs)
  {
    forall r
      ensures (IsUnfulfilled(r) || IsEmailSent(r) || IsFulfilled(r))
              && !(IsUnfulfilled(r) && IsEmailSent(r)) && !(IsUnfulfilled(r) && IsFulfilled(r))
              && !(IsEmailSent(r) && IsFulfilled(r))
    {
      ExactlyOneBucket(r);
    }
    FilterPartition(rs, IsUnfulfilled, IsEmailSent, IsFulfilled);
  }

  /** The buckets partition the list: no request is in two of them, every request is in
      one of them, and the three counts add up to the length of the list. */
  lemma BucketsPartition(rs: seq<BetaRequest>)
    ensures multiset(Unfulfilled(rs)) + multiset(EmailSent(rs)) + multiset(Fulfilled(rs)) == multiset(rs)
    ensures |Unfulfilled(rs)| + |EmailSent(rs)| + |Fulfilled(rs)| == |rs|
    ensures forall r :: !(r in Unfulfilled(rs) && r in EmailSent(rs))
    ensures forall r :: !(r in Unfulfilled(rs) && r in Fulfilled(rs))
    ensures forall r :: !(r in EmailSent(rs) && r in Fulfilled(rs))
  {
    BucketsCoverList(rs);
    calc {
      |rs|;
      |multiset(rs)|;
      |multiset(Unfulfilled(rs)) + multiset(EmailSent(rs)) + multiset(Fulfilled(rs))|;
      |Unfulfilled(rs)| + |EmailSent(rs)| + |Fulfilled(rs)|;
    }
  }

  /** `r` is `s` with some elements left out and the rest kept in order. */
  ghost predicate IsSubsequence<T>(r: seq<T>, s: seq<T>)
    decreases |s|
  {
    r == [] || (s != [] && ((r[0] == s[0] && IsSubsequence(r[1..], s[1..])) || IsSubsequence(r, s[1..])))
  }

  lemma {:induction false} FilterIsSubsequence(s: seq<BetaRequest>, p: BetaRequest -> bool)
    ensures IsSubsequence(Filter(s, p), s)
  {
    if s != [] {
      FilterIsSubsequence(s[1..], p);
      var r := Filter(s, p);
      if p(s[0]) {
        assert r == [s[0]] + Filter(s[1..], p);
        assert r[0] == s[0] && r[1..] == Filter(s[1..], p);
      } else {
        assert r == Filter(s[1..], p);
      }
    }
  }

  lemma {:induction false} FilterConcat(a: seq<BetaRequest>, b: seq<BetaRequest>, p: BetaRequest -> bool)
    ensures Filter(a + b, p) == Filter(a, p) + Filter(b, p)
  {
    if a == [] {
      assert a + b == b;
    } else {
      assert (a + b)[1..] == a[1..] + b;
      FilterConcat(a[1..], b, p);
    }
  }

  /** Every bucket lists its requests in the order the full list has them. */
  lemma BucketsKeepOrder(rs: seq<BetaRequest>)
    ensures IsSubsequence(Unfulfilled(rs), rs)
    ensures IsSubsequence(EmailSent(rs), rs)
    ensures IsSubsequence(Fulfilled(rs), rs)
  {
    FilterIsSubsequence(rs, IsUnfulfilled);
    FilterIsSubsequence(rs, IsEmailSent);
    FilterIsSubsequence(rs, IsFulfilled);
  }

  /** Two requests of one bucket keep their relative position: splitting the list at
      any point splits each bucket at the matching point. */
  lemma BucketsSplitWithList(a: seq<BetaRequest>, b: seq<BetaRequest>)
    ensures Unfulfilled(a + b) == Unfulfilled(a) + Unfulfilled(b)
    ensures EmailSent(a + b) == EmailSent(a) + EmailSent(b)
    ensures Fulfilled(a + b) == Fulfilled(a) + Fulfilled(b)
  {
    FilterConcat(a, b, IsUnfulfilled);
    FilterConcat(a, b, IsEmailSent);
    FilterConcat(a, b, IsFulfilled);
  }

  // ---------------------------------------------------------------------------
  // Detail lookup

  /** The detail view's selection (`betaRequestID: UUID?`) matches a request. */
  predicate HasID(r: BetaRequest, selection: Option<UUID>)
  {
    selection == Some(r.id)
  }

  /** The position `first { $0.id == betaRequestID }` finds. */
  function FirstIndex(rs: seq<BetaRequest>, selection: Option<UUID>): (i: Option<nat>)
    ensures i.Some? ==> i.value < |rs| && HasID(rs[i.value], selection)
    ensures i.Some? ==> forall j :: 0 <= j < i.value ==> !HasID(rs[j], selection)
    ensures i.None? <==> forall j :: 0 <= j < |rs| ==> !HasID(rs[j], selection)
  {
    if rs == [] then None
    else if HasID(rs[0], selection) then Some(0)
    else match FirstIndex(rs[1..], selection)
      case None => None
      case Some(k) => Some(k + 1)
  }

  /** The request a detail view shows: the first with the selected id, or none. */
  function Lookup(rs: seq<BetaRequest>, selection: Option<UUID>): (found: Option<BetaRequest>)
    ensures found.Some? ==> exists i :: 0 <= i < |rs| && rs[i] == found.value && HasID(rs[i], selection)
                                        && forall j :: 0 <= j < i ==> !HasID(rs[j], selection)
    ensures found.None? <==> forall r :: r in rs ==> !HasID(r, selection)
  {
    match FirstIndex(rs, selection)
    case None => None
    case Some(i) => Some(rs[i])
  }

  /** With no selection the detail view never finds a request. */
  lemma NoSelectionFindsNothing(rs: seq<BetaRequest>)
    ensures Lookup(rs, None) == None
  {
  }

  /** The detail view's navigation title: the found request's email, else "No Selection". */
  function NavigationTitle(rs: seq<BetaRequest>, selection: Option<UUID>): (title: string)
    ensures (forall r :: r in rs ==> !HasID(r, selection)) ==> title == "No Selection"
    ensures Lookup(rs, selection).Some? ==> title == Lookup(rs, selection).value.email
  {
    match Lookup(rs, selection)
    case Some(r) => r.email
    case None => "No Selection"
  }

  // ---------------------------------------------------------------------------
  // Actions of the detail view

  /** "Send Email Now" is offered while no email has been sent. */
  predicate OffersSendEmailNow(r: BetaRequest)
  {
    r.sentAt.None?
  }

  /** The update body built by "Mark as Fulfilled / Not Fulfilled". */
  function ToggleFulfilled(r: BetaRequest): (body: BetaRequestUpdateBody)
    ensures body.isFulfilled != r.isFulfilled
    ensures body.sentAt == r.sentAt
  {
    BetaRequestUpdateBody(sentAt := r.sentAt, isFulfilled := !r.isFulfilled)
  }

  /** A request with the fields of an update body written over its own. */
  function Updated(r: BetaRequest, body: BetaRequestUpdateBody): BetaRequest
  {
    r.(sentAt := body.sentAt, isFulfilled := body.isFulfilled)
  }

  /** Toggling changes the fulfilled flag and nothing else, and toggling twice restores
      the request. */
  lemma ToggleFlipsOnlyFulfilled(r: BetaRequest)
    ensures Updated(r, ToggleFulfilled(r)) == r.(isFulfilled := !r.isFulfilled)
    ensures Updated(Updated(r, ToggleFulfilled(r)), ToggleFulfilled(Updated(r, ToggleFulfilled(r)))) == r
  {
  }

  /** Toggling moves a fulfilled request back to the bucket its `sentAt` decides, and any
      other request to the fulfilled bucket; whether "Send Email Now" is offered stays. */
  lemma ToggleMovesBucket(r: BetaRequest)
    ensures var t := Updated(r, ToggleFulfilled(r));
            && (IsFulfilled(r) ==> (if r.sentAt.None? then IsUnfulfilled(t) else IsEmailSent(t)))
            && (!IsFulfilled(r) ==> IsFulfilled(t))
            && (OffersSendEmailNow(t) <==> OffersSendEmailNow(r))
  {
  }

  /** "Send Email Now" is offered for every unfulfilled request and never for one in the
      email-sent bucket. */
  lemma SendEmailNowFollowsBuckets(r: BetaRequest)
    ensures IsUnfulfilled(r) ==> OffersSendEmailNow(r)
    ensures IsEmailSent(r) ==> !OffersSendEmailNow(r)
    ensures OffersSendEmailNow(r) <==> IsUnfulfilled(r) || (IsFulfilled(r) && r.sentAt.None?)
  {
  }
}
