/** What the router has loaded, over runs of syncs (internal/ingress/ingress.go): a successful sync puts the current
    rendering on disk, which is not to say that the router runs it. */
module Reloading {
  import opened Collections
  import opened Routing

  /** One sync: the text rendered, whether a write would get through, and how a reload would end. */
  datatype Attempt = Attempt(rendered: string, writeOk: bool, reload: Reload)

  function Step(r: Router, a: Attempt): (Router, bool) { Synced(r, a.rendered, a.writeOk, a.reload) }

  function After(r: Router, h: seq<Attempt>): Router {
    if h == [] then r else Step(After(r, h[..|h| - 1]), h[|h| - 1]).0
  }

  // What the last sync of a run reports.
  predicate Succeeds(r: Router, h: seq<Attempt>)
    requires h != []
  {
    Step(After(r, h[..|h| - 1]), h[|h| - 1]).1
  }

  // ----- read off the history alone -----

  // The text of the last sync whose write got through or would have.
  function LastText(h: seq<Attempt>): Option<string> {
    if h == [] then None
    else if h[|h| - 1].writeOk then Some(h[|h| - 1].rendered)
    else LastText(h[..|h| - 1])
  }

  // A sync that puts a new text on disk.
  predicate Changes(h: seq<Attempt>, i: nat)
    requires i < |h|
  {
    h[i].writeOk && LastText(h[..i]) != Some(h[i].rendered)
  }

  // The text of the last change whose reload went through.
  function LastReloaded(h: seq<Attempt>): Option<string> {
    if h == [] then None
    else if Changes(h, |h| - 1) && h[|h| - 1].reload == ReloadOk then Some(h[|h| - 1].rendered)
    else LastReloaded(h[..|h| - 1])
  }

  function OrElse(o: Option<string>, default_: string): string { if o.Some? then o.value else default_ }

  // A rendering always starts with its header line.
  ghost predicate Renderings(h: seq<Attempt>) { forall i :: 0 <= i < |h| ==> h[i].rendered != "" }

  // ----- over runs -----

  // From a controller that has written nothing yet, after any run of syncs: the file is the last text written, the
  // router runs the last one whose reload went through, and each is as it was found if there is none.
  lemma {:induction false} StateOverRuns(r: Router, h: seq<Attempt>)
    requires r.lastWritten == "" && Renderings(h)
    ensures After(r, h) == Router(OrElse(LastText(h), ""), OrElse(LastText(h), r.file), OrElse(LastReloaded(h), r.loaded))
    decreases |h|
  {
    if h != [] {
      var n := |h| - 1;
      StateOverRuns(r, h[..n]);
      TextsNonEmpty(h[..n]);
    }
  }

  lemma {:induction false} TextsNonEmpty(h: seq<Attempt>)
    requires Renderings(h)
    ensures LastText(h) != Some("") && LastReloaded(h) != Some("")
    decreases |h|
  {
    if h != [] {
      TextsNonEmpty(h[..|h| - 1]);
    }
  }

  // After a sync that reports success the file is what it rendered, and the router runs it exactly when the last
  // change to be reloaded was to that same text (or the router was found running it and nothing was ever reloaded).
  lemma InStepIff(r: Router, h: seq<Attempt>)
    requires r.lastWritten == "" && Renderings(h) && h != [] && Succeeds(r, h)
    ensures var end, text := After(r, h), h[|h| - 1].rendered;
            && end.file == text
            && (end.loaded == end.file <==>
                  if LastReloaded(h).Some? then LastReloaded(h) == Some(text) else r.loaded == text)
  {
    var n := |h| - 1;
    StateOverRuns(r, h);
    StateOverRuns(r, h[..n]);
    TextsNonEmpty(h[..n]);
  }

  // Only the last change matters: if its reload went through the router is in step, whatever failed before; if not, it
  // still runs what it ran before that change.
  lemma {:induction false} LastChangeDecides(h: seq<Attempt>, i: nat)
    requires i < |h| && Changes(h, i) && forall j :: i < j < |h| ==> !Changes(h, j)
    ensures LastText(h) == Some(h[i].rendered)
    ensures LastReloaded(h) == if h[i].reload == ReloadOk then Some(h[i].rendered) else LastReloaded(h[..i])
    decreases |h|
  {
    var n := |h| - 1;
    if i < n {
      var init := h[..n];
      assert init[..i] == h[..i];
      forall j | i < j < n
        ensures !Changes(init, j)
      {
        assert init[..j] == h[..j] && !Changes(h, j);
      }
      LastChangeDecides(init, i);
      assert !Changes(h, n);
    }
  }

  // A reload that failed is not tried again while the backends stay the same: every later sync, however its write
  // or reload would have gone, reports success and leaves the router where it was.
  lemma {:induction false} FailedReloadIsForgotten(r: Router, text: string, h: seq<Attempt>)
    requires text != r.lastWritten && forall i :: 0 <= i < |h| ==> h[i].rendered == text
    ensures var failed := Step(r, Attempt(text, true, ReloadFails));
            && !failed.1 && failed.0.file == text && failed.0.loaded == r.loaded
            && After(failed.0, h) == failed.0 && (h != [] ==> Succeeds(failed.0, h))
    decreases |h|
  {
    if h != [] {
      FailedReloadIsForgotten(r, text, h[..|h| - 1]);
    }
  }
}
