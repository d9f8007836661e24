/** References between runs: each bundle lists the runs before and after it, and a link is kept on both sides. */
module Refs {
  import opened Options

  datatype Direction = Back | Forward

  function Reciprocal(d: Direction): Direction { if d == Back then Forward else Back }

  /** A bundle: its repository root and the name of its directory. */
  datatype Id = Id(repo: string, dir: string)

  /** The repository is left out of an entry when it is the holding bundle's own. */
  datatype Entry = Entry(slug: string, repo: Option<string>, caption: Option<string>)

  /** The slug is a field of the state, and nothing makes it the name of the directory. */
  datatype Bundle = Bundle(slug: string, back: seq<Entry>, forward: seq<Entry>, topic: Option<string>)

  type World = map<Id, Bundle>

  predicate SlugChar(c: char) { 'a' <= c <= 'z' || '0' <= c <= '9' }

  predicate ValidSlug(s: string) {
    s != "" && SlugChar(s[0]) && forall i :: 0 <= i < |s| ==> SlugChar(s[i]) || s[i] == '-'
  }

  /** Whom an entry names, seen from the repository that holds it. */
  function Named(e: Entry, own: string): Id {
    Id(if e.repo.None? || e.repo.value == "" then own else e.repo.value, e.slug)
  }

  function Entries(b: Bundle, d: Direction): seq<Entry> { if d == Back then b.back else b.forward }

  function WithEntries(b: Bundle, d: Direction, es: seq<Entry>): Bundle {
    if d == Back then b.(back := es) else b.(forward := es)
  }

  predicate Among(es: seq<Entry>, own: string, target: Id) { exists i :: 0 <= i < |es| && Named(es[i], own) == target }

  /** The bundle holds an entry for the target. */
  predicate Holds(b: Bundle, own: string, d: Direction, target: Id) { Among(Entries(b, d), own, target) }

  function Build(target: Id, own: string, caption: Option<string>): Entry {
    Entry(target.dir, if target.repo == own then None else Some(target.repo),
          if caption.None? || caption.value == "" then None else caption)
  }

  /** Adding an entry keeps the bundle as it is if it already holds one for the same target. */
  function Upsert(b: Bundle, own: string, d: Direction, target: Id, caption: Option<string>): Bundle {
    if Holds(b, own, d, target) then b else WithEntries(b, d, Entries(b, d) + [Build(target, own, caption)])
  }

  function Without(es: seq<Entry>, own: string, target: Id): (r: seq<Entry>)
    ensures |r| <= |es|
  {
    if es == [] then []
    else if Named(es[0], own) == target then Without(es[1..], own, target)
    else [es[0]] + Without(es[1..], own, target)
  }

  function Drop(b: Bundle, own: string, d: Direction, target: Id): Bundle {
    WithEntries(b, d, Without(Entries(b, d), own, target))
  }

  // ---- one verb ----

  datatype Verb = Add(caption: Option<string>) | Remove

  datatype Job = Job(verb: Verb, source: Id, direction: Direction, target: Id)

  /** A verb that is refused before anything is written. */
  predicate Refused(w: World, job: Job) {
    || job.source !in w || !ValidSlug(job.target.dir)
    || (job.target in w && !ValidSlug(w[job.source].slug))
    || (job.verb.Add? && job.target !in w)
  }

  function SourceEdit(job: Job, source: Bundle): Bundle {
    if job.verb.Add? then Upsert(source, job.source.repo, job.direction, job.target, job.verb.caption)
    else Drop(source, job.source.repo, job.direction, job.target)
  }

  /** Whom the target's entry names: the bundle that the source's slug stands for. */
  function Signed(job: Job, source: Bundle): Id { Id(job.source.repo, source.slug) }

  function TargetEdit(job: Job, target: Bundle, source: Bundle): Bundle {
    if job.verb.Add? then Upsert(target, job.target.repo, Reciprocal(job.direction), Signed(job, source), source.topic)
    else Drop(target, job.target.repo, Reciprocal(job.direction), Signed(job, source))
  }

  /** The target is written first, from what its file holds now. */
  function WriteTarget(w: World, job: Job, source: Bundle): World {
    if job.target in w then w[job.target := TargetEdit(job, w[job.target], source)] else w
  }

  predicate Writes(job: Job, source: Bundle) { SourceEdit(job, source) != source }

  /** Then the source, from what was read of it at the start; not at all if that needs no change. */
  function WriteSource(w: World, job: Job, source: Bundle): World {
    if Writes(job, source) then w[job.source := SourceEdit(job, source)] else w
  }

  /** A verb that has read its source earlier. */
  function Applied(w: World, job: Job, source: Bundle): World { WriteSource(WriteTarget(w, job, source), job, source) }

  /** A verb with nothing in between. */
  function Do(w: World, job: Job): World { if Refused(w, job) then w else Applied(w, job, w[job.source]) }

  // ---- links ----

  predicate Linked(w: World, a: Id, d: Direction, b: Id) { a in w && Holds(w[a], a.repo, d, b) }

  /** A link is there on both sides or on neither. */
  predicate Both(w: World, a: Id, d: Direction, b: Id) { Linked(w, a, d, b) <==> Linked(w, b, Reciprocal(d), a) }

  /** Between bundles that exist, every link is there on both sides or on neither. */
  ghost predicate Mutual(w: World) {
    forall a, d, b :: a in w && b in w ==> Both(w, a, d, b)
  }

  /** Whether what was read of a verb's source earlier agrees with the source as it is now on a link to an
      existing bundle. Of a link to itself, both halves were read or none. */
  predicate AgreesOn(w: World, job: Job, read: Bundle, d: Direction, b: Id) {
    if b == job.source then Holds(read, b.repo, d, b) <==> Holds(read, b.repo, Reciprocal(d), b)
    else Holds(read, job.source.repo, d, b) <==> Linked(w, job.source, d, b)
  }

  /** It agrees on every link the verb is not about. */
  ghost predicate Agrees(w: World, job: Job, read: Bundle) {
    forall d, b :: b in w && !(d == job.direction && b == job.target) ==> AgreesOn(w, job, read, d, b)
  }

  /** The link a verb is about is as the verb wants it already. */
  predicate Settled(w: World, job: Job, source: Id) {
    Linked(w, source, job.direction, job.target) <==> job.verb.Add?
  }

  /** When a verb may write what it read of its source earlier. It must be right about the other links if
      it writes the source. Its own link must be there already or gone already, if it writes only one side
      of it: it leaves the source alone, or signs the target's entry with another bundle's name; and if
      that other bundle exists, its link must be so too. */
  ghost predicate Fits(w: World, job: Job, read: Bundle) {
    var signed := Signed(job, read);
    && (Writes(job, read) ==> Agrees(w, job, read))
    && (job.target in w && (Writes(job, read) <==> signed != job.source) ==> Settled(w, job, job.source))
    && (job.target in w && signed != job.source && signed in w ==> Settled(w, job, signed))
  }

  lemma BuildNames(target: Id, own: string, caption: Option<string>)
    requires target.repo != ""
    ensures Named(Build(target, own, caption), own) == target
  {
  }

  lemma UpsertHolds(b: Bundle, own: string, d: Direction, target: Id, caption: Option<string>, d': Direction, other: Id)
    requires target.repo != ""
    ensures Holds(Upsert(b, own, d, target, caption), own, d', other) <==>
              Holds(b, own, d', other) || (d' == d && other == target)
  {
    if !Holds(b, own, d, target) && d' == d {
      BuildNames(target, own, caption);
      AppendHolds(Entries(b, d), Build(target, own, caption), own, other);
    }
  }

  lemma AppendHolds(es: seq<Entry>, e: Entry, own: string, other: Id)
    ensures Among(es + [e], own, other) <==> Among(es, own, other) || Named(e, own) == other
  {
    if Among(es, own, other) {
      var i :| 0 <= i < |es| && Named(es[i], own) == other;
      assert (es + [e])[i] == es[i];
    }
    assert (es + [e])[|es|] == e;
  }

  lemma {:induction false} WithoutAmong(es: seq<Entry>, own: string, target: Id, other: Id)
    ensures Among(Without(es, own, target), own, other) <==> Among(es, own, other) && other != target
  {
    if es != [] {
      WithoutAmong(es[1..], own, target, other);
      var rest := Without(es[1..], own, target);
      ConsAmong(es[0], es[1..], own, other);
      assert [es[0]] + es[1..] == es;
      ConsAmong(es[0], rest, own, other);
    }
  }

  lemma ConsAmong(e: Entry, es: seq<Entry>, own: string, other: Id)
    ensures Among([e] + es, own, other) <==> Named(e, own) == other || Among(es, own, other)
  {
    if Among(es, own, other) {
      var i :| 0 <= i < |es| && Named(es[i], own) == other;
      assert ([e] + es)[i + 1] == es[i];
    }
    assert ([e] + es)[0] == e;
  }

  lemma DropHolds(b: Bundle, own: string, d: Direction, target: Id, d': Direction, other: Id)
    ensures Holds(Drop(b, own, d, target), own, d', other) <==>
              Holds(b, own, d', other) && !(d' == d && other == target)
  {
    WithoutAmong(Entries(b, d), own, target, other);
  }

  /** Repository roots are absolute paths. */
  predicate Rooted(job: Job) { job.source.repo != "" && job.target.repo != "" }

  lemma SourceEditHolds(job: Job, b: Bundle, d: Direction, other: Id)
    requires Rooted(job)
    ensures Holds(SourceEdit(job, b), job.source.repo, d, other)
       <==> if d == job.direction && other == job.target then job.verb.Add? else Holds(b, job.source.repo, d, other)
  {
    if job.verb.Add? { UpsertHolds(b, job.source.repo, job.direction, job.target, job.verb.caption, d, other); }
    else { DropHolds(b, job.source.repo, job.direction, job.target, d, other); }
  }

  lemma TargetEditHolds(job: Job, b: Bundle, source: Bundle, d: Direction, other: Id)
    requires Rooted(job)
    ensures Holds(TargetEdit(job, b, source), job.target.repo, d, other)
       <==> if d == Reciprocal(job.direction) && other == Signed(job, source) then job.verb.Add?
            else Holds(b, job.target.repo, d, other)
  {
    var own, back, signed := job.target.repo, Reciprocal(job.direction), Signed(job, source);
    if job.verb.Add? { UpsertHolds(b, own, back, signed, source.topic, d, other); }
    else { DropHolds(b, own, back, signed, d, other); }
  }

  lemma SlugStays(job: Job, b: Bundle, source: Bundle)
    ensures SourceEdit(job, b).slug == b.slug && TargetEdit(job, b, source).slug == b.slug
  {
  }

  /** Every bundle is in the directory its slug names. */
  predicate Titled(w: World) { forall id :: id in w ==> w[id].slug == id.dir }
}
