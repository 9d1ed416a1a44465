/** Worked inputs showing the splitter and the pipeline on small documents. */
module Scenarios {
  import opened Wrappers
  import opened Seqs
  import opened Html
  import opened Sectioning
  import opened Organizer

  /**
   * A body holding `<h1>Intro</h1><p>Hello</p>`, classified as an overview, plans one
   * target in `overviews`, a directory that is never created.
   */
  lemma IntroPlannedUnderOverviews()
    ensures var doc := Document(Some([Node(Some("h1"), "Intro", "<h1>Intro</h1>"), Node(Some("p"), "Hello", "<p>Hello</p>")]));
      var rec := Record("overview", [], "intro.md", "# Intro\nHello");
      ProcessFile(doc, (s: Section) => Some(rec)) == Ok([Target("overviews", "intro.md", "# Intro\nHello")])
  {
    var h := Node(Some("h1"), "Intro", "<h1>Intro</h1>");
    var p := Node(Some("p"), "Hello", "<p>Hello</p>");
    assert [h, p] == [h] + [p] && [p] == [p] + [];
    FoldCons(Start, h, [p]);
    FoldCons(Step(Start, h), p, []);
    assert Step(Start, h) == SplitState([], "Intro", []);
    assert Step(Step(Start, h), p) == SplitState([], "Intro", ["<p>Hello</p>"]);
    assert Join(["<p>Hello</p>"]) == "<p>Hello</p>";
    var sections := [Section("Intro", "<p>Hello</p>")];
    assert Split([h, p]) == sections;
    var rec := Record("overview", [], "intro.md", "# Intro\nHello");
    var classify := (s: Section) => Some(rec);
    assert Replies(sections, classify) == [Some(rec)];
    assert Successes([Some(rec)]) == [rec];
    assert ProcessSections(sections, classify) == [rec];
    assert Lift([rec]) == [Some(rec)];
    assert Bucket("overview") == "overviews";
    assert GenerateFiles([Some(rec)]) == [Target("overviews", "intro.md", "# Intro\nHello")];
  }

  /**
   * A body holding `<h1>API</h1><h2>GET /users</h2><p>desc</p>` gives two sibling sections; the
   * `h1` section does not absorb the `h2` section below it.
   */
  lemma NestedHeadingsAreSiblings()
    ensures Split([Node(Some("h1"), "API", "<h1>API</h1>"),
                   Node(Some("h2"), "GET /users", "<h2>GET /users</h2>"),
                   Node(Some("p"), "desc", "<p>desc</p>")])
         == [Section("API", ""), Section("GET /users", "<p>desc</p>")]
  {
    var a := Node(Some("h1"), "API", "<h1>API</h1>");
    var b := Node(Some("h2"), "GET /users", "<h2>GET /users</h2>");
    var c := Node(Some("p"), "desc", "<p>desc</p>");
    var s1 := Step(Start, a);
    var s2 := Step(s1, b);
    var s3 := Step(s2, c);
    assert s1 == SplitState([], "API", []);
    assert Join([]) == "";
    assert s2 == SplitState([Section("API", "")], "GET /users", []);
    assert s3 == SplitState([Section("API", "")], "GET /users", ["<p>desc</p>"]);
    assert Fold(s3, []) == s3;
    assert [a, b, c] == [a] + [b, c] && [b, c] == [b] + [c] && [c] == [c] + [];
    FoldCons(Start, a, [b, c]);
    FoldCons(s1, b, [c]);
    FoldCons(s2, c, []);
    assert Join(["<p>desc</p>"]) == "<p>desc</p>";
  }

  /**
   * Text before the first heading and after an empty heading is dropped, and an
   * `h4` is content of the section it sits in.
   */
  lemma DropsAndMinorHeadings()
    ensures Split([Node(Some("p"), "pre", "<p>pre</p>"),
                   Node(Some("h1"), "A", "<h1>A</h1>"),
                   Node(Some("h4"), "B", "<h4>B</h4>"),
                   Node(Some("h2"), "", "<h2> </h2>"),
                   Node(None, "lost", "lost"),
                   Node(Some("h3"), "C", "<h3>C</h3>"),
                   Node(Some("p"), "x", "<p>x</p>")])
         == [Section("A", "<h4>B</h4>"), Section("C", "<p>x</p>")]
  {
    var n0 := Node(Some("p"), "pre", "<p>pre</p>");
    var n1 := Node(Some("h1"), "A", "<h1>A</h1>");
    var n2 := Node(Some("h4"), "B", "<h4>B</h4>");
    var n3 := Node(Some("h2"), "", "<h2> </h2>");
    var n4 := Node(None, "lost", "lost");
    var n5 := Node(Some("h3"), "C", "<h3>C</h3>");
    var n6 := Node(Some("p"), "x", "<p>x</p>");
    assert "h4"[1] != "h1"[1] && "h4"[1] != "h2"[1] && "h4"[1] != "h3"[1];
    assert !IsHeading(n2);
    var s1 := Step(Start, n0);
    var s2 := Step(s1, n1);
    var s3 := Step(s2, n2);
    var s4 := Step(s3, n3);
    var s5 := Step(s4, n4);
    var s6 := Step(s5, n5);
    var s7 := Step(s6, n6);
    assert s1 == Start;
    assert s3 == SplitState([], "A", ["<h4>B</h4>"]);
    assert Join(["<h4>B</h4>"]) == "<h4>B</h4>";
    assert s4 == SplitState([Section("A", "<h4>B</h4>")], "", []);
    assert s5 == s4;
    assert s7 == SplitState([Section("A", "<h4>B</h4>")], "C", ["<p>x</p>"]);
    assert Join(["<p>x</p>"]) == "<p>x</p>";
    FoldCons(Start, n0, [n1, n2, n3, n4, n5, n6]);
    FoldCons(s1, n1, [n2, n3, n4, n5, n6]);
    FoldCons(s2, n2, [n3, n4, n5, n6]);
    FoldCons(s3, n3, [n4, n5, n6]);
    FoldCons(s4, n4, [n5, n6]);
    FoldCons(s5, n5, [n6]);
    FoldCons(s6, n6, []);
  }

  /**
   * Relabelling an `h1` as an `h2` changes its tag and its string form but not the
   * split.
   */
  lemma RelabelledHeadingSplitsAlike()
    ensures Split([Node(Some("h1"), "A", "<h1>A</h1>"), Node(Some("p"), "x", "<p>x</p>")])
         == Split([Node(Some("h2"), "A", "<h2>A</h2>"), Node(Some("p"), "x", "<p>x</p>")])
  {
    var a := [Node(Some("h1"), "A", "<h1>A</h1>"), Node(Some("p"), "x", "<p>x</p>")];
    var b := [Node(Some("h2"), "A", "<h2>A</h2>"), Node(Some("p"), "x", "<p>x</p>")];
    assert IsHeading(a[0]) && IsHeading(b[0]) && !IsHeading(a[1]) && !IsHeading(b[1]);
    assert SameShape(a, b);
    LevelIgnored(a, b);
  }

  /** A document without `<body>` raises before any section is classified. */
  lemma MissingBodyFails()
    ensures ProcessFile(Document(None), (s: Section) => None) == Err(MissingBody)
  {
  }
}
