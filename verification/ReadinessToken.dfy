/** The readiness token manifest.txt: every writer revokes it before its first change, and a
    finalization publishes it last (derived_run_open, finalize_report, write_manifest,
    on_interrupt in diagnose.sh; publish_invalidate_derived_outputs in publish-common.sh).
    The bundle lock admits one writer at a time; a kill releases it. */
module ReadinessToken {
  import opened Text

  /** A regular file: data, or a listing of digests by path. */
  datatype Content = Data(bytes: string) | Listing(digests: map<string, string>)

  type Files = map<string, Content>

  const MANIFEST := "manifest.txt"
  const MANIFEST_PENDING := ".manifest.txt.pending"
  const RESULTS := "results.json"
  const RESULTS_PENDING := ".results.json.pending"
  const REPORT := "report.md"
  const REPORT_PENDING := ".report.md.pending"
  const PRIVACY := "privacy-review.txt"
  const PRIVACY_PENDING := ".privacy-review.pending"
  const INVENTORY_BEFORE := ".privacy-inventory-before.pending"
  const INVENTORY_AFTER := ".privacy-inventory-after.pending"

  const CANDIDATES: set<string> :=
    {RESULTS_PENDING, REPORT_PENDING, MANIFEST_PENDING, PRIVACY_PENDING, INVENTORY_BEFORE, INVENTORY_AFTER}

  /** The manifest a bundle should have: the digest of every other file. */
  function Digests(files: Files, digest: Content -> string): map<string, string> {
    map p | p in files && p != MANIFEST && p != MANIFEST_PENDING :: digest(files[p])
  }

  /** Which finalization last published each of the four derived files. */
  type Origins = map<string, nat>

  /** A token, when present, lists exactly the current files, and the derived files come from
      the finalization that wrote it. */
  ghost predicate Honest(files: Files, origins: Origins, digest: Content -> string) {
    MANIFEST in files ==>
      && files[MANIFEST] == Listing(Digests(files, digest))
      && MANIFEST in origins && RESULTS in files && REPORT in files && PRIVACY in files
      && RESULTS in origins && REPORT in origins && PRIVACY in origins
      && origins[RESULTS] == origins[REPORT] == origins[PRIVACY] == origins[MANIFEST]
  }

  /** With an injective digest, a token pins the content of every listed file. */
  lemma TokenPinsContents(files: Files, origins: Origins, digest: Content -> string, claimed: Files)
    requires Honest(files, origins, digest) && MANIFEST in files
    requires forall a, b :: digest(a) == digest(b) ==> a == b
    requires files[MANIFEST] == Listing(Digests(claimed, digest))
    ensures forall p :: p != MANIFEST && p != MANIFEST_PENDING ==>
              (p in files <==> p in claimed) && (p in files ==> files[p] == claimed[p])
  {
    forall p | p != MANIFEST && p != MANIFEST_PENDING
      ensures (p in files <==> p in claimed) && (p in files ==> files[p] == claimed[p])
    {
      assert p in Digests(files, digest) <==> p in files;
      assert p in Digests(claimed, digest) <==> p in claimed;
      assert p in files ==> Digests(files, digest)[p] == digest(files[p]);
      assert p in claimed ==> Digests(claimed, digest)[p] == digest(claimed[p]);
    }
  }

  /** How a writer ends early: killed, a step that fails, or an interrupt signal. */
  datatype Ending = Kill | Failure | Interrupt

  datatype Progress = Going | Stopped

  /** A change to one file: a new content, or removal. */
  datatype Change = Change(path: string, content: Option<Content>)

  /** The generators: what collect, report and the privacy scan make of the current files. */
  datatype Tools = Tools(results: Files -> Content, report: Files -> Content, privacy: Files -> Content,
                         inventory: Files -> Content)

  class Bundle {
    const digest: Content -> string
    var files: Files
    /** Steps the current writer may still take before its early end. */
    var left: nat
    ghost var origins: Origins
    ghost var generation: nat

    ghost predicate IsHonest()
      reads this
    {
      Honest(files, origins, digest)
    }

    constructor (files: Files, digest: Content -> string)
      requires MANIFEST !in files
      ensures IsHonest() && this.files == files && this.digest == digest
    {
      this.files, this.digest, left, origins, generation := files, digest, 0, map[], 0;
    }

    /** The next step is reached, unless the writer ends here. */
    method Reach() returns (p: Progress)
      modifies this`left
      ensures left <= old(left) && (p == Going ==> left < old(left))
    {
      if left == 0 { return Stopped; }
      left := left - 1;
      return Going;
    }

    /** derived_manifest_revoke. */
    method Revoke() returns (p: Progress)
      requires IsHonest()
      modifies this`left, this`files
      ensures IsHonest() && (p == Going ==> MANIFEST !in files)
      ensures files == if p == Going then old(files) - {MANIFEST} else old(files)
    {
      p := Reach();
      if p == Going { files := files - {MANIFEST}; }
    }

    /** Any write to another file, only ever with the token gone. */
    method Put(path: string, content: Option<Content>) returns (p: Progress)
      requires MANIFEST !in files && path != MANIFEST
      modifies this`left, this`files
      ensures MANIFEST !in files
      ensures p == Going ==> files == match content case Some(c) => old(files)[path := c] case None => old(files) - {path}
      ensures p == Stopped ==> files == old(files)
    {
      p := Reach();
      if p == Going {
        match content
        case Some(c) => files := files[path := c];
        case None => files := files - {path};
      }
    }

    method Clean(paths: set<string>) returns (p: Progress)
      requires MANIFEST !in files
      modifies this`left, this`files
      ensures MANIFEST !in files && (p == Going ==> files == old(files) - paths)
    {
      p := Reach();
      if p == Going { files := files - paths; }
    }

    /** derived_run_open: nothing changes before the token is gone. */
    method RunOpen() returns (p: Progress)
      requires IsHonest()
      modifies this`left, this`files
      ensures IsHonest() && (p == Going ==> MANIFEST !in files)
      ensures MANIFEST in files ==> files == old(files)
    {
      p := Revoke();
      if p == Going { p := Clean(CANDIDATES); }
    }

    /** Rename a candidate over its destination (derived_publish_candidate). */
    method Publish(candidate: string, destination: string) returns (p: Progress)
      requires MANIFEST !in files && candidate != MANIFEST && destination != MANIFEST && candidate != destination
      modifies this`left, this`files, this`origins
      ensures MANIFEST !in files
      ensures p == Going ==>
                && candidate in old(files)
                && files == old(files)[destination := old(files)[candidate]] - {candidate}
                && origins == old(origins)[destination := generation]
      ensures p == Stopped ==> files == old(files) && origins == old(origins)
    {
      p := Reach();
      if p == Going {
        if candidate !in files { return Stopped; }
        files := files[destination := files[candidate]] - {candidate};
        origins := origins[destination := generation];
      }
    }

    /** write_privacy_review. */
    method WritePrivacyReview(tools: Tools) returns (p: Progress)
      requires IsHonest()
      modifies this`left, this`files, this`origins
      ensures IsHonest() && (p == Going ==> MANIFEST !in files)
      ensures p == Going ==> PRIVACY in files && origins == old(origins)[PRIVACY := generation]
      ensures p == Going ==> forall q :: q in {RESULTS, REPORT} ==> (q in files <==> q in old(files))
    {
      PathsDiffer();
      p := Revoke();
      if p == Stopped { return; }
      p := Put(INVENTORY_BEFORE, Some(tools.inventory(files)));
      if p == Stopped { return; }
      p := Put(PRIVACY_PENDING, Some(tools.privacy(files)));
      if p == Stopped { return; }
      p := Put(INVENTORY_AFTER, Some(tools.inventory(files)));
      if p == Stopped { return; }
      p := Publish(PRIVACY_PENDING, PRIVACY);
      if p == Stopped { return; }
      p := Clean({PRIVACY_PENDING, INVENTORY_BEFORE, INVENTORY_AFTER});
    }

    /** write_manifest: digest everything into the candidate, then rename it. */
    method WriteManifest() returns (p: Progress)
      requires MANIFEST !in files && RESULTS in files && REPORT in files && PRIVACY in files
      requires RESULTS in origins && REPORT in origins && PRIVACY in origins
      requires origins[RESULTS] == origins[REPORT] == origins[PRIVACY] == generation
      modifies this`left, this`files, this`origins
      ensures IsHonest()
      ensures p == Going ==> MANIFEST in files
    {
      PathsDiffer();
      p := Put(MANIFEST_PENDING, Some(Listing(Digests(files, digest))));
      if p == Stopped { return; }
      p := Reach();
      if p == Stopped { return; }
      ghost var listed := files;
      files := files[MANIFEST := files[MANIFEST_PENDING]] - {MANIFEST_PENDING};
      origins := origins[MANIFEST := generation];
      assert Digests(files, digest) == Digests(listed, digest);
    }

    /** finalize_report; the caller handles an early end. */
    method Finalize(tools: Tools, meta: Change) returns (p: Progress)
      requires IsHonest() && meta.path != MANIFEST
      modifies this`left, this`files, this`origins, this`generation
      ensures IsHonest() && (p == Going ==> MANIFEST in files)
    {
      PathsDiffer();
      generation := generation + 1;
      p := RunOpen();
      if p == Stopped { return; }
      p := Put(meta.path, meta.content);
      if p == Stopped { return; }
      p := Put(RESULTS_PENDING, Some(tools.results(files)));
      if p == Stopped { return; }
      p := Put(REPORT_PENDING, Some(tools.report(files)));
      if p == Stopped { return; }
      p := Publish(RESULTS_PENDING, RESULTS);
      if p == Stopped { return; }
      p := Publish(REPORT_PENDING, REPORT);
      if p == Stopped { return; }
      p := WritePrivacyReview(tools);
      if p == Stopped { return; }
      p := WriteManifest();
      if p == Stopped { return; }
      p := Reach();
    }

    /** finalization_fail and the exit trap: revoke, then clean up what this writer left. */
    method Abort(more: nat)
      requires IsHonest()
      modifies this`left, this`files
      ensures IsHonest()
    {
      left := more;
      var p := Revoke();
      if p == Going { var _ := Clean(CANDIDATES); }
    }

    /** on_interrupt: revoke, clean up, record the interrupt, write a partial report. */
    method OnInterrupt(tools: Tools, meta: Change, redoPending: bool, more: nat)
      requires IsHonest() && meta.path != MANIFEST
      modifies this`left, this`files, this`origins, this`generation
      ensures IsHonest()
    {
      left := more;
      var p := Revoke();
      if p == Stopped { return; }
      p := Clean(CANDIDATES);
      if p == Stopped { return; }
      p := Put(meta.path, meta.content);
      if p == Stopped || redoPending { return; }
      var _ := Finalize(tools, meta);
    }

    /** Evidence work: any sequence of changes to other files. */
    method Work(changes: seq<Change>) returns (p: Progress)
      requires MANIFEST !in files
      requires forall i :: 0 <= i < |changes| ==> changes[i].path != MANIFEST
      modifies this`left, this`files
      ensures MANIFEST !in files
    {
      p := Going;
      for i := 0 to |changes|
        invariant MANIFEST !in files
      {
        p := Put(changes[i].path, changes[i].content);
        if p == Stopped { return; }
      }
    }

    /** One run of diagnose.sh: it may end early at any step, and its handler may too. */
    method Diagnose(changes: seq<Change>, tools: Tools, meta: Change, steps: nat, ending: Ending, redoPending: bool,
                    more: nat) returns (p: Progress)
      requires IsHonest() && meta.path != MANIFEST
      requires forall i :: 0 <= i < |changes| ==> changes[i].path != MANIFEST
      modifies this
      ensures IsHonest() && (p == Going ==> MANIFEST in files)
    {
      left := steps;
      p := RunOpen();
      if p == Going { p := Work(changes); }
      if p == Going { p := Finalize(tools, meta); }
      if p == Stopped {
        match ending
        case Kill =>
        case Failure => Abort(more);
        case Interrupt => OnInterrupt(tools, meta, redoPending, more);
      }
    }

    /** A publisher: publish_invalidate_derived_outputs, then its own changes. */
    method PublishCompanion(changes: seq<Change>, steps: nat)
      requires IsHonest()
      requires forall i :: 0 <= i < |changes| ==> changes[i].path != MANIFEST
      modifies this`left, this`files
      ensures IsHonest()
    {
      left := steps;
      PathsDiffer();
      var p := Revoke();
      if p == Stopped { return; }
      p := Put(PRIVACY, None);
      if p == Stopped { return; }
      p := Put(RESULTS, None);
      if p == Stopped { return; }
      p := Put(REPORT, None);
      if p == Stopped { return; }
      var _ := Work(changes);
    }
  }

  lemma PathsDiffer()
    ensures MANIFEST !in CANDIDATES && MANIFEST != RESULTS && MANIFEST != REPORT && MANIFEST != PRIVACY
    ensures RESULTS !in CANDIDATES && REPORT !in CANDIDATES && PRIVACY !in CANDIDATES
    ensures RESULTS != REPORT && RESULTS != PRIVACY && REPORT != PRIVACY
  {
    assert MANIFEST[0] == 'm' && RESULTS[0] == 'r' && RESULTS[2] == 's' && REPORT[2] == 'p' && PRIVACY[0] == 'p';
    assert forall p :: p in CANDIDATES ==> p[0] == '.';
  }

  /** One locked writer after another. */
  datatype Writer =
    | Diagnosing(changes: seq<Change>, tools: Tools, meta: Change, steps: nat, ending: Ending, redoPending: bool,
                 more: nat)
    | Publishing(changes: seq<Change>, steps: nat)

  predicate Disciplined(w: Writer) {
    && (forall i :: 0 <= i < |w.changes| ==> w.changes[i].path != MANIFEST)
    && (w.Diagnosing? ==> w.meta.path != MANIFEST)
  }

  /** After any sequence of writers, each ended anywhere, the token is honest. */
  method Session(initial: Files, digest: Content -> string, writers: seq<Writer>) returns (b: Bundle)
    requires MANIFEST !in initial && forall i :: 0 <= i < |writers| ==> Disciplined(writers[i])
    ensures fresh(b) && b.digest == digest && b.IsHonest()
  {
    b := new Bundle(initial, digest);
    for k := 0 to |writers|
      invariant fresh(b) && b.digest == digest && b.IsHonest()
    {
      match writers[k]
      case Diagnosing(changes, tools, meta, steps, ending, redoPending, more) =>
        var _ := b.Diagnose(changes, tools, meta, steps, ending, redoPending, more);
      case Publishing(changes, steps) => b.PublishCompanion(changes, steps);
    }
  }
}
