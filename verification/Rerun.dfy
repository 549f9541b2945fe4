/**
  The rerun contract. Small files are written at their final name, large ones
  are renamed into place, metadata is repaired in place; any of it may stop at
  any step. The next run decides by size and last-write time alone whether a
  file is complete. Every step keeps `Honest`, which is what makes that safe.
*/
module Rerun {
  import opened Bytes
  import opened Classifier

  type Data = seq<Byte>

  /** A file at the destination. */
  datatype Held = Held(content: Data, basic: Basic, eaSize: nat)

  /** The value that makes a set time mean "leave unchanged". */
  const UNCHANGED: int := 0

  class Destination {
    const policy: Policy
    const source: Meta
    const content: Data
    var held: Option<Held>

    ghost predicate Fixed() { source.kind.File? && |content| == source.size }

    /** Nothing there, or the classifier sees a difference in the data facts, or
        the content really is the source's. */
    ghost predicate Honest()
      reads this
    {
      && Fixed()
      && (held.Some? ==>
            || |held.value.content| != source.size
            || !policy.WrittenEqual(source.basic.written, held.value.basic.written)
            || held.value.content == content)
    }

    /** The file is a beginning of the source: unfinished, or complete. */
    ghost predicate Growing()
      reads this
    {
      Fixed() && held.Some? && held.value.content <= content
    }

    function MetaOf(h: Held): Meta { Meta(File, 0, |h.content|, h.eaSize, h.basic) }

    function Verdict(replace: bool): Classification
      reads this`held
    {
      Classify(policy, source, if held.Some? then Some(MetaOf(held.value)) else None, replace)
    }

    constructor (policy: Policy, source: Meta, content: Data)
      requires source.kind.File? && |content| == source.size
      ensures Honest() && held == None
      ensures this.policy == policy && this.source == source && this.content == content
    {
      this.policy, this.source, this.content, held := policy, source, content, None;
    }

    // ---- primitive steps; a crash may follow any of them

    /** Growing files are honest whatever their times say. */
    lemma GrowingIsHonest()
      requires Growing()
      ensures Honest()
    {
      if |held.value.content| == source.size {
        assert held.value.content == content[..source.size] == content;
      }
    }

    /** Creates the name; the driver chooses the times. */
    method CreateNew() returns (ok: bool)
      requires Honest() && held.None?
      modifies this`held
      ensures Honest()
      ensures ok ==> Growing() && held.value.content == [] && held.value.eaSize == 0
      ensures !ok ==> held == old(held)
    {
      ok := *;
      if ok {
        var now: Basic := *;
        held := Some(Held([], now, 0));
        GrowingIsHonest();
      }
    }

    /** Opens the classified file for replacement. If access is denied to a file
        that is read-only, the attribute is cleared, the open tried again, and
        the attribute restored if that fails too. */
    method OpenForReplacement(expected: Held) returns (ok: bool)
      requires Honest()
      modifies this`held
      ensures Honest()
      ensures ok ==> Growing() && held.value.content == [] && held.value.eaSize == expected.eaSize
      ensures !ok ==> held == old(held) || (old(held).Some? && held == Some(Writable(old(held).value)))
    {
      ok := OpenChecked(expected);
      var denied: bool := *;
      if ok || !denied || expected.basic.attributes & READONLY == 0 {
        return;
      }
      var cleared := ClearReadonly(expected);
      if !cleared {
        return;
      }
      ok := OpenChecked(Writable(expected));
      var restored: bool := *;
      if !ok && restored {
        held := Some(expected);
      }
    }

    /** Opens the file and checks it on the handle before truncating it. */
    method OpenChecked(expected: Held) returns (ok: bool)
      requires Honest()
      modifies this`held
      ensures Honest()
      ensures ok ==> Growing() && held.value.content == [] && held.value.eaSize == expected.eaSize
      ensures !ok ==> held == old(held)
    {
      ok := *;
      if held != Some(expected) {
        ok := false;
      }
      if ok {
        var now: Basic := *;
        held := Some(held.value.(content := [], basic := now));
        GrowingIsHonest();
      }
    }

    function Writable(h: Held): Held { h.(basic := h.basic.(attributes := h.basic.attributes & !READONLY)) }

    /** Clears the attribute; the times it sets are those it has read. */
    method ClearReadonly(expected: Held) returns (ok: bool)
      requires Honest()
      modifies this`held
      ensures Honest()
      ensures ok ==> old(held) == Some(expected) && held == Some(Writable(expected))
      ensures !ok ==> held == old(held)
    {
      ok := *;
      if held != Some(expected) {
        ok := false;
      }
      if ok {
        held := Some(Writable(expected));
      }
    }

    /** Sets times and attributes, as the storage can represent them. */
    method Stamp(given: Basic) returns (ok: bool)
      requires Growing()
      modifies this`held
      ensures Growing() && Honest()
      ensures held.value.content == old(held).value.content && held.value.eaSize == old(held).value.eaSize
      ensures ok ==> Stamped(given, old(held).value.basic, held.value.basic)
    {
      ok := *;
      if ok {
        var before := held.value.basic;
        assert Stamped(given, before, Basic(if given.created == UNCHANGED then before.created else given.created,
                                            if given.written == UNCHANGED then before.written else given.written,
                                            given.attributes));
        var stored: Basic :| Stamped(given, before, stored);
        held := Some(held.value.(basic := stored));
      }
      GrowingIsHonest();
    }

    predicate Stamped(given: Basic, before: Basic, stored: Basic) {
      && (if given.written == UNCHANGED then stored.written == before.written
          else policy.WrittenEqual(given.written, stored.written))
      && (if given.created == UNCHANGED then stored.created == before.created
          else policy.CreatedEqual(given.created, stored.created))
      && policy.AttributesEqual(given.attributes, stored.attributes)
    }

    /** Writes some of what is missing. Times set on this handle stay, unless the
        driver touches them. */
    method WriteSome(n: nat)
      requires Growing() && |held.value.content| + n <= source.size
      modifies this`held
      ensures Growing() && Honest()
      ensures |held.value.content| == |old(held).value.content| + n && held.value.eaSize == old(held).value.eaSize
      ensures !policy.StampsAfterwards() ==> held.value.basic == old(held).value.basic
    {
      var have := |held.value.content|;
      var now: Basic := *;
      held := Some(held.value.(content := content[..have + n],
                               basic := if policy.StampsAfterwards() then now else held.value.basic));
      GrowingIsHonest();
    }

    // ---- the paths

    /** A plain small file, new or replacing the classified one: read as a whole,
        written at the final name, stamped before or after by the policy. */
    method CopyPlainSmall(expected: Option<Held>, flush: bool) returns (ok: bool)
      requires Honest() && (policy.supportsEas ==> source.eaSize == 0)
      modifies this`held
      ensures Honest()
      ensures ok ==> held.Some? && held.value.content == content
      ensures ok ==> held.value.eaSize == if expected.Some? then expected.value.eaSize else 0
      ensures ok && Settable() && EasAgree(held.value) ==> Verdict(true).Same?
    {
      ok := Begin(expected);
      if !ok {
        return;
      }
      var landed: nat :| landed <= source.size;
      WriteSome(landed);
      if landed < source.size {
        // the write failed part-way, or the run stopped here
        return false;
      }
      ok := Complete(flush);
    }

    /** Opens the final name, with the stamp that comes at creation. */
    method Begin(expected: Option<Held>) returns (ok: bool)
      requires Honest()
      modifies this`held
      ensures Honest()
      ensures ok ==> Growing() && held.value.content == []
      ensures ok ==> held.value.eaSize == if expected.Some? then expected.value.eaSize else 0
      ensures ok && !policy.StampsAfterwards() ==> Set(held.value.basic)
    {
      if expected.Some? {
        ok := OpenForReplacement(expected.value);
      } else if held.None? {
        ok := CreateNew();
      } else {
        ok := false;
      }
      if ok && !policy.StampsAfterwards() {
        ok := Stamp(policy.Project(source.basic));
      }
    }

    /** The basic facts are those the source's make, where a set can set them. */
    ghost predicate Set(basic: Basic) {
      exists before :: Stamped(policy.Project(source.basic), before, basic)
    }

    /** After the whole write: the stamp that comes afterwards, and the flush. */
    method Complete(flush: bool) returns (ok: bool)
      requires Growing() && |held.value.content| == source.size
      requires !policy.StampsAfterwards() ==> Set(held.value.basic)
      modifies this`held
      ensures Honest() && held.Some? && held.value.content == content
      ensures ok ==> held.value.eaSize == old(held).value.eaSize
      ensures ok && Settable() && EasAgree(held.value) ==> Verdict(true).Same?
    {
      WholeContent();
      ok := true;
      if policy.StampsAfterwards() {
        ok := Stamp(policy.Project(source.basic));
        WholeContent();
      }
      var flushed: bool := *;
      if ok && flush && !flushed {
        Poison();
        ok := false;
      }
      if ok && Settable() && EasAgree(held.value) {
        SetIsSame(held.value);
      }
    }

    predicate EasAgree(h: Held) { policy.supportsEas ==> h.eaSize == source.eaSize }

    lemma SetIsSame(h: Held)
      requires Fixed() && Set(h.basic) && Settable() && |h.content| == source.size && EasAgree(h)
      ensures Classify(policy, source, Some(MetaOf(h)), true) == Same
    {
      MaskTwice(source.basic.attributes, policy.Mask());
      ClassifyMeans(policy, source, MetaOf(h), true);
    }

    /** The stamp settles the file: whatever the storage makes of it, the next run
        finds the same. */
    ghost predicate Settles(h: Held, before: Basic) {
      forall stored :: Stamped(policy.Project(source.basic), before, stored) ==>
                         Classify(policy, source, Some(MetaOf(h.(basic := stored))), true) == Same
    }

    /** Each time that a stamp over these times leaves unchanged is right. */
    predicate TimesSettle(before: Basic) {
      && (source.basic.written != UNCHANGED || policy.WrittenEqual(UNCHANGED, before.written))
      && CreationSettles(before)
    }

    predicate CreationSettles(before: Basic) {
      || policy.Projected() || source.basic.created != UNCHANGED
      || policy.CreatedEqual(UNCHANGED, before.created)
    }

    /** A stamp over these times settles a whole file exactly when each time it
        leaves unchanged is right already, and the attributes kept beside the
        data are the source's. */
    lemma SettlesExactly(h: Held, before: Basic)
      requires Fixed() && |h.content| == source.size
      ensures Settles(h, before) <==> TimesSettle(before) && EasAgree(h)
    {
      forall stored | Stamped(policy.Project(source.basic), before, stored) && TimesSettle(before) && EasAgree(h)
        ensures Classify(policy, source, Some(MetaOf(h.(basic := stored))), true) == Same
      {
        StampSettles(h, before, stored);
      }
      var exact := ExactStamp(h, before);
    }

    lemma StampSettles(h: Held, before: Basic, stored: Basic)
      requires Fixed() && |h.content| == source.size && TimesSettle(before) && EasAgree(h)
      requires Stamped(policy.Project(source.basic), before, stored)
      ensures Classify(policy, source, Some(MetaOf(h.(basic := stored))), true) == Same
    {
      MaskTwice(source.basic.attributes, policy.Mask());
      ClassifyMeans(policy, source, MetaOf(h.(basic := stored)), true);
    }

    /** What a storage without rounding makes of the stamp. */
    lemma ExactStamp(h: Held, before: Basic) returns (exact: Basic)
      requires Fixed() && |h.content| == source.size
      ensures Stamped(policy.Project(source.basic), before, exact)
      ensures !(TimesSettle(before) && EasAgree(h)) ==>
                Classify(policy, source, Some(MetaOf(h.(basic := exact))), true) != Same
    {
      var given := policy.Project(source.basic);
      exact := Basic(if given.created == UNCHANGED then before.created else given.created,
                     if given.written == UNCHANGED then before.written else given.written,
                     given.attributes);
      ClassifyMeans(policy, source, MetaOf(h.(basic := exact)), true);
    }

    /** It does so over any times exactly when no source time means "unchanged". */
    lemma AlwaysSettlesExactly(h: Held)
      requires Fixed() && |h.content| == source.size
      ensures (forall before :: Settles(h, before)) <==> Settable() && EasAgree(h)
    {
      forall before ensures Settable() && EasAgree(h) ==> Settles(h, before) {
        SettlesExactly(h, before);
      }
      var far := Basic(TICKS_PER_SECOND * 10, TICKS_PER_SECOND * 10, 0);
      SettlesExactly(h, far);
    }

    lemma WholeContent()
      requires Growing() && |held.value.content| == source.size
      ensures held.value.content == content
    {
    }

    /** The source's own times are ones a set does not take for "unchanged". */
    predicate Settable() {
      source.basic.written != UNCHANGED && (policy.Projected() || source.basic.created != UNCHANGED)
    }

    /** After a failed flush the time is spoiled, so that the next run copies
        again. */
    method Poison()
      requires Growing() && held.value.content == content
      modifies this`held
      ensures Honest() && held.Some? && held.value.content == content
    {
      var spoiled: Basic := *;
      held := Some(held.value.(basic := spoiled));
    }

    /** A file staged elsewhere replaces the name at once; its times follow. */
    method CopyTransactional() returns (ok: bool)
      requires Honest()
      modifies this`held
      ensures Honest()
      ensures ok ==> held.Some? && held.value.content == content
      ensures ok && Settable() ==> Verdict(true).Same?
    {
      var renamed: bool := *;
      if !renamed {
        return false;
      }
      var basic: Basic := *;
      held := Some(Held(content, basic, if policy.supportsEas then source.eaSize else 0));
      ok := Stamp(policy.Project(source.basic));
      if ok && Settable() {
        SetIsSame(held.value);
      }
      var closed: bool := *;
      ok := ok && closed;
    }

    /** Repairs attributes, creation time and, where they differ, extended
        attributes of a file whose data facts agree. Done, the next run finds the
        same, but for a creation time that cannot be set. */
    method RepairMetadata() returns (ok: bool)
      requires Honest() && Verdict(true).MetadataDiff?
      modifies this`held
      ensures Honest() && held.Some? && held.value.content == old(held).value.content == content
      ensures ok && CreationSettles(old(held).value.basic) ==> Verdict(true).Same?
    {
      ClassifyMeans(policy, source, MetaOf(held.value), true);
      ghost var before := held.value.basic;
      if DEaSize in Verdict(true).fields {
        ok := RewriteEas();
        if !ok {
          return;
        }
      }
      ok := Stamp(policy.Project(source.basic));
      SettlesExactly(held.value, before);
    }

    /** Clears the extended attributes and writes the source's. */
    method RewriteEas() returns (ok: bool)
      requires held.Some?
      modifies this`held
      ensures held.Some? && held.value.content == old(held).value.content && held.value.basic == old(held).value.basic
      ensures ok ==> held.value.eaSize == source.eaSize
    {
      ok := *;
      if !ok {
        return;
      }
      held := Some(held.value.(eaSize := 0));
      ok := *;
      if ok {
        held := Some(held.value.(eaSize := source.eaSize));
      }
    }

    /** One run: classify, then copy, repair or leave alone. It may stop at any
        step. What it leaves alone as the same is the source. */
    method Run(replace: bool, plain: bool, flush: bool) returns (verdict: Classification)
      requires Honest() && (plain && policy.supportsEas ==> source.eaSize == 0)
      modifies this`held
      ensures Honest() && verdict == old(Verdict(replace))
      ensures verdict.Same? || verdict.MetadataDiff? ==> old(held).Some? && old(held).value.content == content
      ensures verdict.Same? || verdict.SkipDifferent? ==> held == old(held)
    {
      verdict := Verdict(replace);
      SkipIsSafe(replace);
      var ok;
      match verdict {
        case New => ok := CopyBy(None, plain, flush);
        case Replace(_, _) => ok := CopyBy(held, plain, flush);
        case MetadataDiff(_) =>
          ClassifyMeans(policy, source, MetaOf(held.value), replace);
          ClassifyMeans(policy, source, MetaOf(held.value), true);
          ok := RepairMetadata();
        case _ =>
      }
    }

    method CopyBy(expected: Option<Held>, plain: bool, flush: bool) returns (ok: bool)
      requires Honest() && (plain && policy.supportsEas ==> source.eaSize == 0)
      modifies this`held
      ensures Honest()
    {
      if plain {
        ok := CopyPlainSmall(expected, flush);
      } else {
        ok := CopyTransactional();
      }
    }

    /** The classifier never takes a partial file for a complete one. */
    lemma SkipIsSafe(replace: bool)
      requires Honest()
      ensures Verdict(replace).Same? || Verdict(replace).MetadataDiff? ==>
                held.Some? && held.value.content == content
    {
      if held.Some? {
        ClassifyMeans(policy, source, MetaOf(held.value), replace);
      }
    }

    /** Any number of runs, each stopping anywhere. */
    method Runs(n: nat, replace: bool, plain: bool, flush: bool)
      requires Honest() && (plain && policy.supportsEas ==> source.eaSize == 0)
      modifies this`held
      ensures Honest()
      ensures Verdict(replace).Same? ==> held.Some? && held.value.content == content
    {
      for i := 0 to n
        invariant Honest()
      {
        var verdict := Run(replace, plain, flush);
      }
      SkipIsSafe(replace);
    }
  }
  /** A source last written at time zero: the copy keeps the time of its creation,
      and every run copies it again. */
  lemma ZeroTimeNeverSettles(d: Destination, h: Held, before: Basic)
    requires d.Fixed() && d.source.basic.written == UNCHANGED && |h.content| == d.source.size
    requires before.written >= 10 * TICKS_PER_SECOND
    ensures !d.Settles(h, before)
    ensures forall stored :: d.Stamped(d.policy.Project(d.source.basic), before, stored) ==>
              Classify(d.policy, d.source, Some(d.MetaOf(h.(basic := stored))), true).Replace?
  {
    d.SettlesExactly(h, before);
    forall stored | d.Stamped(d.policy.Project(d.source.basic), before, stored)
      ensures Classify(d.policy, d.source, Some(d.MetaOf(h.(basic := stored))), true).Replace?
    {
      ClassifyMeans(d.policy, d.source, d.MetaOf(h.(basic := stored)), true);
    }
  }

  /** A file replaced in place keeps its extended attributes: if the source has
      none, the next run sees a difference in metadata, and repairs it. */
  lemma KeptAttributesDiffer(d: Destination, h: Held, before: Basic)
    requires d.Fixed() && d.policy.supportsEas && d.source.eaSize == 0 && h.eaSize > 0
    requires |h.content| == d.source.size && d.Settable()
    ensures !d.Settles(h, before)
    ensures forall stored :: d.Stamped(d.policy.Project(d.source.basic), before, stored) ==>
              Classify(d.policy, d.source, Some(d.MetaOf(h.(basic := stored))), true) == MetadataDiff([DEaSize])
  {
    d.SettlesExactly(h, before);
    MaskTwice(d.source.basic.attributes, d.policy.Mask());
    forall stored | d.Stamped(d.policy.Project(d.source.basic), before, stored)
      ensures Classify(d.policy, d.source, Some(d.MetaOf(h.(basic := stored))), true) == MetadataDiff([DEaSize])
    {
      ClassifyMeans(d.policy, d.source, d.MetaOf(h.(basic := stored)), true);
    }
  }
}
