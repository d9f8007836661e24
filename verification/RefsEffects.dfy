/** What the refs verbs leave in the bundles, entry by entry, and when they are refused. */
module RefsEffects {
  import opened Options
  import opened Refs
  import opened RefsSerial

  /** A slug: small letters, figures and hyphens, not starting with a hyphen. */
  lemma ValidSlugIff(s: string)
    ensures ValidSlug(s) <==>
              |s| > 0 && forall i :: 0 <= i < |s| ==>
                'a' <= s[i] <= 'z' || '0' <= s[i] <= '9' || (i > 0 && s[i] == '-')
  {
  }

  /** When a verb goes through: its source is there, the slugs it writes are slugs, and what is added to exists. */
  predicate CanDo(w: World, job: Job) {
    && job.source in w && ValidSlug(job.target.dir)
    && (job.target in w ==> ValidSlug(w[job.source].slug))
    && (job.verb.Add? ==> job.target in w)
  }

  /** The entry that names a bundle: with the repository if that is another one, and a caption if there is one. */
  function EntryFor(slug: string, repo: string, own: string, caption: Option<string>): Entry {
    Entry(slug, if repo == own then None else Some(repo), if caption == Some("") then None else caption)
  }

  /** Some entry of the list names this bundle. */
  predicate Names(es: seq<Entry>, own: string, repo: string, slug: string) {
    exists i :: 0 <= i < |es| && es[i].slug == slug
                && repo == (if es[i].repo == None || es[i].repo == Some("") then own else es[i].repo.value)
  }

  function Added(es: seq<Entry>, own: string, repo: string, slug: string, caption: Option<string>): seq<Entry> {
    if Names(es, own, repo, slug) then es else es + [EntryFor(slug, repo, own, caption)]
  }

  function Flip(d: Direction): Direction {
    match d
    case Back => Forward
    case Forward => Back
  }

  function ListOf(b: Bundle, d: Direction): seq<Entry> {
    match d
    case Back => b.back
    case Forward => b.forward
  }

  /** Two bundles but for one list. */
  predicate ButFor(a: Bundle, b: Bundle, d: Direction) {
    a.slug == b.slug && a.topic == b.topic && ListOf(a, Flip(d)) == ListOf(b, Flip(d))
  }

  /** A verb that is refused changes nothing: an addition to a bundle that does not exist, for one. */
  lemma RefusedOtherwise(w: World, job: Job)
    ensures Refused(w, job) <==> !CanDo(w, job)
    ensures !CanDo(w, job) ==> Do(w, job) == w
  {
  }

  lemma NamesIff(es: seq<Entry>, own: string, id: Id)
    ensures Among(es, own, id) <==> Names(es, own, id.repo, id.dir)
  {
    if Among(es, own, id) {
      var i :| 0 <= i < |es| && Named(es[i], own) == id;
      assert es[i].slug == id.dir;
    }
    if i :| 0 <= i < |es| && es[i].slug == id.dir
            && id.repo == (if es[i].repo == None || es[i].repo == Some("") then own else es[i].repo.value) {
      assert Named(es[i], own) == id;
    }
  }

  /** Adding, between different bundles: each side gets one entry at its end, unless it names the other already;
      the source's with the caption given, the target's with the source's topic. Nothing else changes. */
  lemma AddsExactly(w: World, job: Job, id: Id)
    requires CanDo(w, job) && job.verb.Add? && job.source != job.target && id in w
    ensures var d, s, t := job.direction, w[job.source], w[job.target];
            var v := Do(w, job);
            && v.Keys == w.Keys
            && (id != job.source && id != job.target ==> v[id] == w[id])
            && ButFor(v[job.source], s, d) && ButFor(v[job.target], t, Flip(d))
            && ListOf(v[job.source], d)
               == Added(ListOf(s, d), job.source.repo, job.target.repo, job.target.dir, job.verb.caption)
            && ListOf(v[job.target], Flip(d))
               == Added(ListOf(t, Flip(d)), job.target.repo, job.source.repo, s.slug, s.topic)
  {
    var s := w[job.source];
    NamesIff(Entries(s, job.direction), job.source.repo, job.target);
    NamesIff(Entries(w[job.target], Reciprocal(job.direction)), job.target.repo, Signed(job, s));
  }

  /** What is left of a list without the entries that name a bundle: the others, in their order. */
  lemma {:induction false} WithoutSnoc(es: seq<Entry>, e: Entry, own: string, target: Id)
    ensures Without([], own, target) == []
    ensures Without(es + [e], own, target)
         == Without(es, own, target) + if Names([e], own, target.repo, target.dir) then [] else [e]
  {
    NamesIff([e], own, target);
    assert Among([e], own, target) <==> Named(e, own) == target by {
      if Named(e, own) == target { assert [e][0] == e; }
    }
    if es == [] {
      assert [] + [e] == [e];
      assert [e][1..] == [];
    } else {
      assert (es + [e])[1..] == es[1..] + [e];
      WithoutSnoc(es[1..], e, own, target);
    }
  }

  /** Removing, between different bundles: each side loses the entries that name the other, the target's side
      only if it exists. Nothing else changes. */
  lemma RemovesExactly(w: World, job: Job, id: Id)
    requires CanDo(w, job) && job.verb.Remove? && job.source != job.target && id in w
    ensures var d, s := job.direction, w[job.source];
            var v := Do(w, job);
            && v.Keys == w.Keys
            && (id != job.source && id != job.target ==> v[id] == w[id])
            && ButFor(v[job.source], s, d)
            && ListOf(v[job.source], d) == Without(ListOf(s, d), job.source.repo, job.target)
            && (job.target in w ==>
                  && ButFor(v[job.target], w[job.target], Flip(d))
                  && ListOf(v[job.target], Flip(d))
                     == Without(ListOf(w[job.target], Flip(d)), job.target.repo, Id(job.source.repo, s.slug)))
  {
  }
}
