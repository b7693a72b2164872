/** `getLatestContext` from the shared helpers. */
module Utils {
  import opened Optional
  import opened Types
  import Store

  /** The newest snapshot of a task: the last element of its history, or
      `None` (`null`) when there is none. */
  function GetLatestContext(cs: seq<Context>): (r: Option<Context>)
    ensures r.None? <==> cs == []
    ensures r.Some? ==> r.value == cs[|cs| - 1] && r.value in cs
  {
    if |cs| == 0 then None else Some(cs[|cs| - 1])
  }

  /** After `addContext` on a task, that task's latest context is the one
      just appended, built from the given inputs. */
  lemma LatestAfterAddContext(
    s: Store.Store, id: Id, note: string, links: seq<string>, nextAction: Option<string>,
    audioUrl: Option<string>, audioTranscript: Option<string>, screenshot: Option<string>,
    env: Store.Env, i: nat)
    requires i < |s.tasks| && s.tasks[i].id == id
    ensures var r := Store.AddContext(s, id, note, links, nextAction, audioUrl, audioTranscript, screenshot, env);
      var latest := GetLatestContext(r.tasks[i].contexts);
      && latest.Some?
      && Store.CarriesInputs(latest.value, env.freshId, env.now, note, links, nextAction,
                             audioUrl, audioTranscript, screenshot)
  {
  }
}
