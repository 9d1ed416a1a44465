/**
 * `DocumentationOrganizer.process_file` and the parts of `GPTProcessor` and
 * `FileGenerator` it relies on: each section is classified independently, the
 * failures are dropped, and every kept record is assigned an output directory.
 */
module Organizer {
  import opened Wrappers
  import opened Seqs
  import opened Html
  import opened Sectioning

  /** The classifier's reply: the four fields the prompt asks for. */
  datatype Record = Record(sectionType: string, relatedEndpoints: seq<string>, filename: string, content: string)

  /**
   * `GPTProcessor.process_section`: a record, or `None` when the call raised or the
   * reply was falsy. The service itself is a parameter.
   */
  type Classifier = Section -> Option<Record>

  // ---------------------------------------------------------------------------
  // Keeping the successes.
  // ---------------------------------------------------------------------------

  /**
   * The present values of `rs`, in order: the loop of `process_file` appends a reply
   * only when it is truthy, and `generate_files` skips falsy entries the same way.
   */
  function Successes<T>(rs: seq<Option<T>>): (kept: seq<T>)
    ensures |kept| <= |rs|
  {
    if |rs| == 0 then []
    else (if rs[0].Some? then [rs[0].value] else []) + Successes(rs[1..])
  }

  /** Filtering distributes over concatenation: each entry is judged on its own. */
  lemma {:induction false} SuccessesAppend<T>(a: seq<Option<T>>, b: seq<Option<T>>)
    ensures Successes(a + b) == Successes(a) + Successes(b)
  {
    if |a| > 0 {
      assert (a + b)[0] == a[0];
      assert (a + b)[1..] == a[1..] + b;
      SuccessesAppend(a[1..], b);
    } else {
      assert a + b == b;
    }
  }

  /** Prepending a kept value and its index keeps values and indices aligned. */
  lemma AlignedCons<T>(rs: seq<Option<T>>, j: nat, kept: seq<T>, ok: seq<nat>)
    requires j < |rs| && rs[j].Some?
    requires |kept| == |ok|
    requires forall k :: 0 <= k < |ok| ==> ok[k] < |rs| && rs[ok[k]].Some? && kept[k] == rs[ok[k]].value
    ensures forall k :: 0 <= k < |ok| + 1 ==>
      ([j] + ok)[k] < |rs| && rs[([j] + ok)[k]].Some? && ([rs[j].value] + kept)[k] == rs[([j] + ok)[k]].value
  {
    forall k | 0 <= k < |ok| + 1
      ensures ([j] + ok)[k] < |rs| && rs[([j] + ok)[k]].Some? && ([rs[j].value] + kept)[k] == rs[([j] + ok)[k]].value
    {
      if k > 0 {
        assert ([j] + ok)[k] == ok[k - 1];
        assert ([rs[j].value] + kept)[k] == kept[k - 1];
      }
    }
  }

  lemma {:induction false} SuccessesAtFrom<T>(rs: seq<Option<T>>, i: nat)
    requires i <= |rs|
    ensures var ok := PositionsFrom(rs, IsSome, i);
      && |Successes(rs[i..])| == |ok|
      && forall k :: 0 <= k < |ok| ==> Successes(rs[i..])[k] == rs[ok[k]].value
    decreases |rs| - i
  {
    if i < |rs| {
      assert rs[i..][0] == rs[i];
      assert rs[i..][1..] == rs[i + 1..];
      SuccessesAtFrom(rs, i + 1);
      if rs[i].Some? {
        AlignedCons(rs, i, Successes(rs[i + 1..]), PositionsFrom(rs, IsSome, i + 1));
      }
    }
  }

  /**
   * The kept values are exactly the present entries, in their original order: the
   * k-th kept value is the entry at the k-th index holding `Some`.
   */
  lemma SuccessesAt<T>(rs: seq<Option<T>>)
    ensures var ok := Positions(rs, IsSome);
      && |Successes(rs)| == |ok|
      && forall k :: 0 <= k < |ok| ==> Successes(rs)[k] == rs[ok[k]].value
  {
    SuccessesAtFrom(rs, 0);
    assert rs[0..] == rs;
  }

  /** Every entry present. */
  function Lift<T>(xs: seq<T>): (rs: seq<Option<T>>)
  {
    seq(|xs|, i requires 0 <= i < |xs| => Some(xs[i]))
  }

  /** A list with no `None` passes the filter unchanged. */
  lemma {:induction false} SuccessesOfLift<T>(xs: seq<T>)
    ensures Successes(Lift(xs)) == xs
  {
    if |xs| > 0 {
      assert Lift(xs)[0] == Some(xs[0]);
      assert Lift(xs)[1..] == Lift(xs[1..]);
      SuccessesOfLift(xs[1..]);
    }
  }

  // ---------------------------------------------------------------------------
  // Classifying the sections.
  // ---------------------------------------------------------------------------

  /** One classifier reply per section, in section order. */
  function Replies(sections: seq<Section>, classify: Classifier): (rs: seq<Option<Record>>)
  {
    seq(|sections|, i requires 0 <= i < |sections| => classify(sections[i]))
  }

  /** Classifying a concatenation classifies each part. */
  lemma RepliesAppend(a: seq<Section>, b: seq<Section>, classify: Classifier)
    ensures Replies(a + b, classify) == Replies(a, classify) + Replies(b, classify)
  {
    var l, r := Replies(a + b, classify), Replies(a, classify) + Replies(b, classify);
    assert |l| == |r|;
    forall i | 0 <= i < |l|
      ensures l[i] == r[i]
    {
      if i < |a| {
        assert (a + b)[i] == a[i];
      } else {
        assert (a + b)[i] == b[i - |a|];
      }
    }
  }

  /**
   * The loop of `process_file`: the records handed to file generation are the
   * successful replies, in section order, and every successful reply is among them.
   */
  function ProcessSections(sections: seq<Section>, classify: Classifier): (processed: seq<Record>)
    ensures |processed| <= |sections|
    ensures var ok := Positions(Replies(sections, classify), IsSome);
      && |processed| == |ok|
      && forall k :: 0 <= k < |ok| ==> classify(sections[ok[k]]) == Some(processed[k])
  {
    SuccessesAt(Replies(sections, classify));
    Successes(Replies(sections, classify))
  }

  /**
   * A failed section contributes nothing and does not stop the loop: the sections
   * after it are processed as if it were absent.
   */
  lemma FailureDoesNotStop(before: seq<Section>, s: Section, after: seq<Section>, classify: Classifier)
    requires classify(s).None?
    ensures ProcessSections(before + [s] + after, classify)
         == ProcessSections(before, classify) + ProcessSections(after, classify)
  {
    var rb, ra := Replies(before, classify), Replies(after, classify);
    var none: seq<Option<Record>> := [None];
    RepliesAppend(before + [s], after, classify);
    RepliesAppend(before, [s], classify);
    assert Replies([s], classify) == none;
    SuccessesAppend(rb + none, ra);
    SuccessesAppend(rb, none);
    assert Successes(none) == [];
    assert rb + none + ra == Replies(before + [s] + after, classify);
    assert ProcessSections(before + [s] + after, classify) == Successes(rb + none + ra);
    assert ProcessSections(before, classify) == Successes(rb);
    assert ProcessSections(after, classify) == Successes(ra);
  }

  // ---------------------------------------------------------------------------
  // Output directories.
  // ---------------------------------------------------------------------------

  /** The subdirectories `FileGenerator` creates under the output directory. */
  const CreatedDirs: seq<string> := ["endpoints", "concepts", "overview"]

  /** The subdirectory a record of type `sectionType` is written to. */
  function Bucket(sectionType: string): (dir: string)
    ensures dir == "overview" <==> sectionType == "other"
  {
    PluralIsNotOverview(sectionType);
    if sectionType == "other" then "overview" else sectionType + "s"
  }

  /** A string ending in `s` is not `overview`. */
  lemma PluralIsNotOverview(t: string)
    ensures t + "s" != "overview"
  {
    var u := t + "s";
    assert u[|u| - 1] == 's';
    if |u| == |"overview"| {
      assert "overview"[|u| - 1] == 'w';
    }
  }

  /** Distinct section types never share a directory. */
  lemma BucketInjective(a: string, b: string)
    requires Bucket(a) == Bucket(b)
    ensures a == b
  {
    if a != "other" && b != "other" {
      assert a == (a + "s")[..|a|];
      assert b == (b + "s")[..|b|];
    } else if a != "other" {
      PluralIsNotOverview(a);
    } else if b != "other" {
      PluralIsNotOverview(b);
    }
  }

  /**
   * A record lands in a created directory exactly when its type is `endpoint`,
   * `concept` or `other`; an `overview` record goes to `overviews`, which is never
   * created.
   */
  lemma BucketCreatedIff(t: string)
    ensures Bucket(t) in CreatedDirs <==> t == "endpoint" || t == "concept" || t == "other"
  {
    if t != "other" {
      PluralIsNotOverview(t);
      if Bucket(t) == "endpoints" {
        assert Bucket("endpoint") == "endpoints";
        BucketInjective(t, "endpoint");
      } else if Bucket(t) == "concepts" {
        assert Bucket("concept") == "concepts";
        BucketInjective(t, "concept");
      }
    }
  }

  // ---------------------------------------------------------------------------
  // File generation and the whole pipeline.
  // ---------------------------------------------------------------------------

  /** A file to be written: `<output_dir>/<dir>/<filename>` with `content`. */
  datatype Target = Target(dir: string, filename: string, content: string)

  function TargetOf(rec: Record): (t: Target)
  {
    Target(Bucket(rec.sectionType), rec.filename, rec.content)
  }

  /**
   * `FileGenerator.generate_files`: falsy entries are skipped, every other entry
   * yields one file in its type's directory, in list order.
   */
  function GenerateFiles(processed: seq<Option<Record>>): (ts: seq<Target>)
    ensures var ok := Positions(processed, IsSome);
      && |ts| == |ok|
      && forall k :: 0 <= k < |ok| ==>
           ts[k].dir == Bucket(processed[ok[k]].value.sectionType)
           && ts[k].filename == processed[ok[k]].value.filename
           && ts[k].content == processed[ok[k]].value.content
  {
    var kept := Successes(processed);
    SuccessesAt(processed);
    seq(|kept|, k requires 0 <= k < |kept| => TargetOf(kept[k]))
  }

  /**
   * `process_file` after reading the input: split, classify every section, keep the
   * successes, plan one file per kept record.
   */
  function ProcessFile(doc: Document, classify: Classifier): (r: Result<seq<Target>, ParseError>)
    ensures r.Err? <==> doc.body.None?
    ensures r.Ok? ==>
      var sections := Reference(doc.body.value);
      var ok := Positions(Replies(sections, classify), IsSome);
      && |r.value| == |ok|
      && forall k :: 0 <= k < |ok| ==>
           classify(sections[ok[k]]).Some? && r.value[k] == TargetOf(classify(sections[ok[k]]).value)
  {
    match SplitIntoSections(doc)
    case Err(e) => Err(e)
    case Ok(sections) =>
      var processed := ProcessSections(sections, classify);
      SuccessesOfLift(processed);
      Ok(GenerateFiles(Lift(processed)))
  }
}
