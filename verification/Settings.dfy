/** What the mine's intent is set to do: internal/domain/intent.go. */
module Settings {
  import opened Basics

  datatype Mode = Off | Decay | Promote | Both {
    predicate Decays() { Decay? || Both? }

    predicate Promotes() { Promote? || Both? }
  }

  datatype Knowledge = Estimate | Truth

  datatype DeadlineOrigin = FromArrival | FromChange

  datatype IntentClass = ClassDecayed | ClassPromoted | ClassRestored

  datatype HazardLevel = Moderate | High | VeryHigh

  datatype Intent = Intent(
    mode: Mode,
    knowledge: Knowledge,
    preLocation: bool,
    preLocationMagnitude: real,
    protect: seq<Kind>,
    lookahead: Time,
    protectLevel: HazardLevel,
    promoteLevel: HazardLevel,
    margin: real,
    locationUncertainty: real,
    decayTo: Priority,
    promoteTo: Priority,
    deadlineFrom: DeadlineOrigin,
    restore: bool,
    burstExempt: seq<IntentClass>)
  {
    predicate Exempts(class_: IntentClass) { class_ in burstExempt }

    /** Settings intent can act on. The names of modes, levels and classes cannot be
        wrong here, because they are constructors and not strings. */
    predicate Usable()
    {
      && lookahead >= 0
      && margin >= 0.0
      && locationUncertainty >= 0.0
      && decayTo < promoteTo
      && (forall kind :: kind in protect ==> kind in ENTITY_KINDS)
    }

    /** The settings with a patch applied and checked; a refused patch changes nothing. */
    function Patched(patch: Patch): (r: Result<Intent>)
    {
      var next := With(patch);
      if patch.malformed then Err
      else if patch.blank then Ok(this)
      else if next.Usable() then Ok(next)
      else Err
    }

    /** The settings with the fields a patch names replaced. */
    function With(patch: Patch): Intent
    {
      Intent(
        patch.mode.Or(mode), patch.knowledge.Or(knowledge), patch.preLocation.Or(preLocation),
        patch.preLocationMagnitude.Or(preLocationMagnitude), patch.protect.Or(protect),
        patch.lookahead.Or(lookahead), patch.protectLevel.Or(protectLevel),
        patch.promoteLevel.Or(promoteLevel), patch.margin.Or(margin),
        patch.locationUncertainty.Or(locationUncertainty), patch.decayTo.Or(decayTo),
        patch.promoteTo.Or(promoteTo), patch.deadlineFrom.Or(deadlineFrom),
        patch.restore.Or(restore), patch.burstExempt.Or(burstExempt))
    }
  }

  const ENTITY_KINDS := ["person", "crewed-vehicle", "autonomous-vehicle"]

  /** One field of a patch: present with a value, or left as it was. */
  datatype Field<+T> = Absent | Given(value: T) {
    function Or(current: T): T { if Given? then value else current }
  }

  /** A patch document: the fields it names. `blank` is a document with nothing in it,
      `malformed` one that does not decode, for instance because it names an unknown field. */
  datatype Patch = Patch(
    blank: bool,
    malformed: bool,
    mode: Field<Mode>,
    knowledge: Field<Knowledge>,
    preLocation: Field<bool>,
    preLocationMagnitude: Field<real>,
    protect: Field<seq<Kind>>,
    lookahead: Field<Time>,
    protectLevel: Field<HazardLevel>,
    promoteLevel: Field<HazardLevel>,
    margin: Field<real>,
    locationUncertainty: Field<real>,
    decayTo: Field<Priority>,
    promoteTo: Field<Priority>,
    deadlineFrom: Field<DeadlineOrigin>,
    restore: Field<bool>,
    burstExempt: Field<seq<IntentClass>>)

  /** The document that names every field of some settings, as they are recorded. */
  function Whole(s: Intent): Patch
  {
    Patch(false, false, Given(s.mode), Given(s.knowledge), Given(s.preLocation),
          Given(s.preLocationMagnitude), Given(s.protect), Given(s.lookahead),
          Given(s.protectLevel), Given(s.promoteLevel), Given(s.margin),
          Given(s.locationUncertainty), Given(s.decayTo), Given(s.promoteTo),
          Given(s.deadlineFrom), Given(s.restore), Given(s.burstExempt))
  }

  // ---------- What a patch does ----------

  /** A field after a patch: what the patch says, or what it was where the patch says nothing. */
  predicate Kept<T(==)>(field: Field<T>, old_: T, new_: T)
  {
    match field
    case Given(value) => new_ == value
    case Absent => new_ == old_
  }

  /** Every field of some settings is as a patch of others says, or as it was in those. */
  predicate Follows(s: Intent, patch: Patch, next: Intent)
  {
    && Kept(patch.mode, s.mode, next.mode)
    && Kept(patch.knowledge, s.knowledge, next.knowledge)
    && Kept(patch.preLocation, s.preLocation, next.preLocation)
    && Kept(patch.preLocationMagnitude, s.preLocationMagnitude, next.preLocationMagnitude)
    && Kept(patch.protect, s.protect, next.protect)
    && Kept(patch.lookahead, s.lookahead, next.lookahead)
    && Kept(patch.protectLevel, s.protectLevel, next.protectLevel)
    && Kept(patch.promoteLevel, s.promoteLevel, next.promoteLevel)
    && Kept(patch.margin, s.margin, next.margin)
    && Kept(patch.locationUncertainty, s.locationUncertainty, next.locationUncertainty)
    && Kept(patch.decayTo, s.decayTo, next.decayTo)
    && Kept(patch.promoteTo, s.promoteTo, next.promoteTo)
    && Kept(patch.deadlineFrom, s.deadlineFrom, next.deadlineFrom)
    && Kept(patch.restore, s.restore, next.restore)
    && Kept(patch.burstExempt, s.burstExempt, next.burstExempt)
  }

  /** A patch that decodes and is not blank is accepted exactly when settings that follow it are
      usable, and then gives them; there is one such. */
  lemma PatchFollows(s: Intent, patch: Patch, next: Intent)
    requires !patch.blank
    ensures s.Patched(patch) == Ok(next) <==> !patch.malformed && Follows(s, patch, next) && next.Usable()
    ensures s.Patched(patch).Err? <==> patch.malformed || forall n :: Follows(s, patch, n) ==> !n.Usable()
  {
    hide Follows, Intent.With, Intent.Usable;
    FollowsOnce(s, patch, next);
    FollowsOnce(s, patch, s.With(patch));
    forall n | Follows(s, patch, n) ensures n == s.With(patch) {
      FollowsOnce(s, patch, n);
    }
  }

  lemma FollowsOnce(s: Intent, patch: Patch, next: Intent)
    ensures Follows(s, patch, next) <==> next == s.With(patch)
  {
    hide Field.Or, Kept;
    Keeps(patch.mode, s.mode, next.mode);
    Keeps(patch.knowledge, s.knowledge, next.knowledge);
    Keeps(patch.preLocation, s.preLocation, next.preLocation);
    Keeps(patch.preLocationMagnitude, s.preLocationMagnitude, next.preLocationMagnitude);
    Keeps(patch.protect, s.protect, next.protect);
    Keeps(patch.lookahead, s.lookahead, next.lookahead);
    Keeps(patch.protectLevel, s.protectLevel, next.protectLevel);
    Keeps(patch.promoteLevel, s.promoteLevel, next.promoteLevel);
    Keeps(patch.margin, s.margin, next.margin);
    Keeps(patch.locationUncertainty, s.locationUncertainty, next.locationUncertainty);
    Keeps(patch.decayTo, s.decayTo, next.decayTo);
    Keeps(patch.promoteTo, s.promoteTo, next.promoteTo);
    Keeps(patch.deadlineFrom, s.deadlineFrom, next.deadlineFrom);
    Keeps(patch.restore, s.restore, next.restore);
    Keeps(patch.burstExempt, s.burstExempt, next.burstExempt);
  }

  lemma Keeps<T>(field: Field<T>, old_: T, new_: T)
    ensures Kept(field, old_, new_) <==> new_ == field.Or(old_)
  {
  }

  predicate NamesNothing(patch: Patch)
  {
    && patch.mode.Absent? && patch.knowledge.Absent? && patch.preLocation.Absent? && patch.preLocationMagnitude.Absent?
    && patch.protect.Absent? && patch.lookahead.Absent? && patch.protectLevel.Absent? && patch.promoteLevel.Absent?
    && patch.margin.Absent? && patch.locationUncertainty.Absent? && patch.decayTo.Absent? && patch.promoteTo.Absent?
    && patch.deadlineFrom.Absent? && patch.restore.Absent? && patch.burstExempt.Absent?
  }

  /** A blank patch is accepted of any settings and changes nothing; so does one that names no
      field, of settings that are usable. */
  lemma NothingNamedNothingChanged(s: Intent, patch: Patch)
    requires !patch.malformed
    ensures patch.blank ==> s.Patched(patch) == Ok(s)
    ensures NamesNothing(patch) && !patch.blank ==> s.Patched(patch) == if s.Usable() then Ok(s) else Err
  {
  }
}
