/** Which event an accepted delivery is: with a collision-free fingerprint, an
    acknowledgement means exactly this event is in the inbox. */
module Identity {
  import opened Domain
  import opened Projection
  import opened Invariants
  import opened Fingerprint

  /** A validated event in canonical form. */
  ghost predicate Sound(e: Event) {
    e.Valid() && e.Canonical() == e
  }

  ghost predicate InboxSound(s: State) {
    forall k | k in s.inbox :: Sound(s.inbox[k]) && s.inbox[k].id == k
  }

  ghost predicate Holds(s: State, e: Event) {
    e.id in s.inbox && s.inbox[e.id] == e
  }

  lemma {:induction false} CanonicalSound(e: Event)
    requires e.Valid()
    ensures Sound(e.Canonical())
  {
    CanonicalStable(e);
  }

  lemma {:induction false} SameFingerprint(fp: Event -> string, a: Event, b: Event)
    requires CollisionFree(fp) && Sound(a) && Sound(b) && fp(a) == fp(b)
    ensures a == b
  {
  }

  /** A later inbox keeps every row of an earlier one. */
  ghost predicate Grows(s: State, s': State) {
    forall k | k in s.inbox :: k in s'.inbox && s'.inbox[k] == s.inbox[k]
  }

  /** The inbox kept all its rows and gained at most the event e, which is
      there after a success. */
  ghost predicate Took(s: State, s': State, e: Event, ok: bool) {
    && Grows(s, s')
    && (forall k | k in s'.inbox :: k in s.inbox || s'.inbox[k] == e)
    && (ok ==> Holds(s', e))
  }

  lemma {:induction false} ClashSound(s: State, e: Event)
    requires InboxSound(s)
    ensures Clash(s, e).Some? ==> Sound(Clash(s, e).value) && Holds(s, Clash(s, e).value)
  {
  }

  lemma {:induction false} DuplicateTook(fp: Event -> string, s: State, e: Event)
    requires CollisionFree(fp) && InboxSound(s) && Sound(e) && Matches(fp, s, e)
    ensures Took(s, s, e, true)
  {
    ClashSound(s, e);
    SameFingerprint(fp, Clash(s, e).value, e);
  }

  lemma {:induction false} FileTook(s: State, e: Event, b: Book)
    requires InboxSound(s) && Sound(e) && Fresh(s, e)
    ensures InboxSound(File(s, e, b)) && Took(s, File(s, e, b), e, true)
  {
  }

  lemma {:induction false} OkIsValid(fp: Event -> string, s: State, event: Event)
    requires Apply(fp, s, event).1.Ok()
    ensures event.Valid()
  {
  }

  /** Apply never removes or alters an inbox row, adds at most the delivered
      event in canonical form, and succeeds only if that event is then there. */
  lemma {:induction false} ApplyHolds(fp: Event -> string, s: State, event: Event)
    requires CollisionFree(fp) && InboxSound(s)
    ensures InboxSound(Apply(fp, s, event).0)
    ensures Took(s, Apply(fp, s, event).0, event.Canonical(), Apply(fp, s, event).1.Ok())
  {
    ApplyCases(fp, s, event);
    var o := Apply(fp, s, event).1;
    if o.Ok() {
      OkIsValid(fp, s, event);
      CanonicalSound(event);
      var e := event.Canonical();
      if o.Applied? {
        FileTook(s, e, Post(BookOf(s, e.merchant), e).value);
      } else {
        DuplicateTook(fp, s, e);
      }
    }
  }

  /** The same of an event already in canonical form. */
  lemma {:induction false} ApplySound(fp: Event -> string, s: State, e: Event)
    requires CollisionFree(fp) && InboxSound(s) && Sound(e)
    ensures InboxSound(Apply(fp, s, e).0)
    ensures Took(s, Apply(fp, s, e).0, e, Apply(fp, s, e).1.Ok())
  {
    ApplyHolds(fp, s, e);
  }

  /** The event alone overflows no column of the projection as it stands. */
  predicate Fits(s: State, e: Event) {
    Clash(s, e).None? && e.position >= 1 ==> Post(BookOf(s, e.merchant), e).Some?
  }

  /** An event that fits and clashes with no other is taken. */
  lemma {:induction false} UnclashedApplies(fp: Event -> string, s: State, e: Event)
    requires Sound(e) && Fits(s, e) && (Clash(s, e).Some? ==> Clash(s, e).value == e)
    ensures Apply(fp, s, e).1.Ok()
  {
  }
}
