/**
 * The resume layout of src/layouts/Layout1.js as a pure projection from a CV
 * document to a small visual tree: design tokens with their defaults, the
 * name heading and profile lines, and one block per non-empty section.
 *
 * React renders a falsy guard `v && <x/>` as nothing when v is `undefined`
 * or `""`, but as the text "0" when v is the number 0; `Guarded` keeps that.
 */
module Layout {
  import opened Js
  import opened Document

  /** The five resolved design tokens of the page. */
  datatype Tokens = Tokens(font: string, size: string, text: string, heading: string, accent: string)

  /** An inline piece of text and how it is styled. */
  datatype Span =
    | Plain(text: string)                               // bare text
    | Bold(text: string)                                // `font-semibold` span
    | Dim(text: string)                                 // span at opacity 0.7
    | Note(text: string)                                // paragraph at opacity 0.8
    | Link(href: string, caption: string, color: string)  // underlined anchor

  /** A child of the profile block under the name. */
  datatype Detail = Para(spans: seq<Span>) | Bare(text: string)

  /** A list entry of a section: a bullet line, or a skill chip with its colours. */
  datatype Item = Bullet(spans: seq<Span>) | Chip(caption: string, color: string, border: string, background: string)

  /** A rendered section: its 20px heading and its entries. */
  datatype Block = Block(title: string, color: string, items: seq<Item>)

  datatype Page = Page(tokens: Tokens, name: string, nameColor: string, details: seq<Detail>, blocks: seq<Block>)

  /** The design tokens: each design key or its default; heading and accent both follow `accentColor`. */
  function TokensOf(design: Record): (t: Tokens)
    ensures t.font == Or(Get(design, "fontFamily"), "Arial")
    ensures t.size == if Truthy(Get(design, "fontSize")) then Show(Get(design, "fontSize")) + "px" else "16px"
    ensures t.text == Or(Get(design, "primaryColor"), "#1a1a1a")
    ensures t.heading == Or(Get(design, "accentColor"), "#1e40af")
    ensures t.accent == Or(Get(design, "accentColor"), "#2563eb")
  {
    Tokens(
      Or(Get(design, "fontFamily"), "Arial"),
      if Truthy(Get(design, "fontSize")) then Show(Get(design, "fontSize")) + "px" else "16px",
      Or(Get(design, "primaryColor"), "#1a1a1a"),
      Or(Get(design, "accentColor"), "#1e40af"),
      Or(Get(design, "accentColor"), "#2563eb"))
  }

  /** `v && x` as React renders it. */
  function Guarded<T>(v: Option<Value>, x: T, zero: T): (r: seq<T>)
    ensures Truthy(v) ==> r == [x]
    ensures v == Some(Num(0)) ==> r == [zero]
    ensures !Truthy(v) && v != Some(Num(0)) ==> r == []
  {
    if Truthy(v) then [x] else if v == Some(Num(0)) then [zero] else []
  }

  function Field(r: Record, key: string): Option<Value> { Get(r, key) }

  function SectionTitle(s: Section): string {
    match s
    case Education => "Education"
    case Experience => "Experience"
    case Projects => "Projects"
    case Skills => "Skills"
    case Social => "Social Profiles"
  }

  /** The chip text: the name, a space, and `(p%)` only when the percentage is truthy. */
  function ChipLabel(r: Record): string {
    Show(Field(r, "name")) + " " + (if Truthy(Field(r, "percentage")) then "(" + Show(Field(r, "percentage")) + "%)" else "")
  }

  /** How one record of section s is drawn. */
  function ItemView(s: Section, r: Record, accent: string): Item {
    match s
    case Education =>
      Bullet([Bold(Show(Field(r, "degree"))), Plain(" at "), Plain(Show(Field(r, "institution"))), Plain(" ")]
             + Guarded(Field(r, "percentage"), Plain("- " + Show(Field(r, "percentage"))), Plain("0")))
    case Experience =>
      Bullet([Bold(Show(Field(r, "position"))), Plain(" at "), Plain(Show(Field(r, "organization"))), Plain(" ")]
             + Guarded(Field(r, "location"), Plain("- " + Show(Field(r, "location"))), Plain("0")))
    case Projects =>
      Bullet([Bold(Show(Field(r, "title"))), Plain(" ")]
             + Guarded(Field(r, "technologies"), Dim("(" + Show(Field(r, "technologies")) + ")"), Plain("0"))
             + Guarded(Field(r, "description"), Note(Show(Field(r, "description"))), Plain("0")))
    case Skills =>
      Chip(ChipLabel(r), accent, "1px solid " + accent, accent + "20")
    case Social =>
      Bullet(Guarded(Field(r, "platform"), Bold(Show(Field(r, "platform")) + ": "), Plain("0"))
             + Guarded(Field(r, "link"), Link(Show(Field(r, "link")), Show(Field(r, "link")), accent), Plain("0")))
  }

  /** `records.map(...)`: one entry per record, in order. */
  function ItemsView(s: Section, rs: seq<Record>, accent: string): (items: seq<Item>)
    ensures |items| == |rs|
    ensures forall k :: 0 <= k < |rs| ==> items[k] == ItemView(s, rs[k], accent)
  {
    seq(|rs|, k requires 0 <= k < |rs| => ItemView(s, rs[k], accent))
  }

  /** `section.length > 0 && <div>...</div>` */
  function SectionView(cv: Cv, s: Section, t: Tokens): seq<Block> {
    if |cv.Items(s)| > 0 then [Block(SectionTitle(s), t.heading, ItemsView(s, cv.Items(s), t.accent))] else []
  }

  function Details(basic: Record): seq<Detail> {
    Guarded(Get(basic, "email"), Para([Plain("Email: "), Plain(Show(Get(basic, "email")))]), Bare("0"))
    + Guarded(Get(basic, "contact"), Para([Plain("Contact: "), Plain(Show(Get(basic, "contact")))]), Bare("0"))
    + Guarded(Get(basic, "intro"), Para([Note(Show(Get(basic, "intro")))]), Bare("0"))
  }

  /** `<Layout1 data={cv} />` */
  function Render(cv: Cv): Page {
    var t := TokensOf(cv.design);
    Page(t, Or(Get(cv.basic, "name"), "Your Name"), t.heading, Details(cv.basic),
         SectionView(cv, Education, t) + SectionView(cv, Experience, t) + SectionView(cv, Projects, t)
         + SectionView(cv, Skills, t) + SectionView(cv, Social, t))
  }

  /** The first block with the given title, if any. */
  function Find(blocks: seq<Block>, title: string): (r: Option<Block>)
    ensures r.Some? ==> r.value in blocks && r.value.title == title
    ensures r.None? <==> forall b :: b in blocks ==> b.title != title
  {
    if blocks == [] then None
    else if blocks[0].title == title then Some(blocks[0])
    else Find(blocks[1..], title)
  }

  lemma TitlesDistinct(s: Section, u: Section)
    requires s != u
    ensures SectionTitle(s) != SectionTitle(u)
  {
  }

  /** A search over two runs of blocks finds in the first run before looking at the second. */
  lemma {:induction false} FindConcat(a: seq<Block>, b: seq<Block>, title: string)
    ensures Find(a + b, title) == if Find(a, title).Some? then Find(a, title) else Find(b, title)
  {
    if a != [] {
      assert (a + b)[0] == a[0];
      assert (a + b)[1..] == a[1..] + b;
      FindConcat(a[1..], b, title);
    } else {
      assert a + b == b;
    }
  }

  lemma FindInView(cv: Cv, u: Section, t: Tokens, s: Section)
    ensures Find(SectionView(cv, u, t), SectionTitle(s)) ==
      if u == s && |cv.Items(s)| > 0 then Some(Block(SectionTitle(s), t.heading, ItemsView(s, cv.Items(s), t.accent))) else None
  {
    if u != s { TitlesDistinct(u, s); }
  }

  /**
   * Looking a section up by its heading finds nothing when it has no records,
   * and otherwise finds a block in the heading colour with exactly one entry
   * per record, in record order.
   */
  lemma SectionBlocks(cv: Cv, s: Section)
    ensures var p := Render(cv); var b := Find(p.blocks, SectionTitle(s));
      (|cv.Items(s)| == 0 <==> b.None?) &&
      (b.Some? ==> b.value.color == p.tokens.heading && |b.value.items| == |cv.Items(s)| &&
                   forall k :: 0 <= k < |cv.Items(s)| ==> b.value.items[k] == ItemView(s, cv.Items(s)[k], p.tokens.accent))
  {
    var t := TokensOf(cv.design);
    var title := SectionTitle(s);
    var e, x, pr := SectionView(cv, Education, t), SectionView(cv, Experience, t), SectionView(cv, Projects, t);
    var sk, so := SectionView(cv, Skills, t), SectionView(cv, Social, t);
    FindInView(cv, Education, t, s);
    FindInView(cv, Experience, t, s);
    FindInView(cv, Projects, t, s);
    FindInView(cv, Skills, t, s);
    FindInView(cv, Social, t, s);
    FindConcat(e, x, title);
    FindConcat(e + x, pr, title);
    FindConcat(e + x + pr, sk, title);
    FindConcat(e + x + pr + sk, so, title);
    assert Render(cv).blocks == e + x + pr + sk + so;
  }
  /** Sections appear in the fixed order, one block per non-empty section and none for an empty one. */
  lemma BlockCount(cv: Cv)
    ensures |Render(cv).blocks| ==
      (if |cv.education| > 0 then 1 else 0) + (if |cv.experience| > 0 then 1 else 0) +
      (if |cv.projects| > 0 then 1 else 0) + (if |cv.skills| > 0 then 1 else 0) + (if |cv.social| > 0 then 1 else 0)
  {
    var t := TokensOf(cv.design);
    var e, x, pr := SectionView(cv, Education, t), SectionView(cv, Experience, t), SectionView(cv, Projects, t);
    var sk, so := SectionView(cv, Skills, t), SectionView(cv, Social, t);
    assert Render(cv).blocks == e + x + pr + sk + so;
    assert |e| == (if |cv.education| > 0 then 1 else 0);
    assert |x| == (if |cv.experience| > 0 then 1 else 0);
    assert |pr| == (if |cv.projects| > 0 then 1 else 0);
    assert |sk| == (if |cv.skills| > 0 then 1 else 0);
    assert |so| == (if |cv.social| > 0 then 1 else 0);
  }

  /** The heading shows the name when it is set, and the placeholder "Your Name" otherwise. */
  lemma NamePlaceholder(cv: Cv)
    ensures Render(cv).name == "Your Name" <==> (!Truthy(Get(cv.basic, "name")) || Show(Get(cv.basic, "name")) == "Your Name")
    ensures Truthy(Get(cv.basic, "name")) ==> Render(cv).name == Show(Get(cv.basic, "name"))
    ensures Render(cv).nameColor == Render(cv).tokens.heading
  {
  }

  /** The e-mail, contact and intro lines appear exactly when the field is truthy. */
  lemma ProfileLines(cv: Cv)
    ensures Para([Plain("Email: "), Plain(Show(Get(cv.basic, "email")))]) in Render(cv).details <==> Truthy(Get(cv.basic, "email"))
    ensures Para([Plain("Contact: "), Plain(Show(Get(cv.basic, "contact")))]) in Render(cv).details <==> Truthy(Get(cv.basic, "contact"))
    ensures Para([Note(Show(Get(cv.basic, "intro")))]) in Render(cv).details <==> Truthy(Get(cv.basic, "intro"))
  {
    var b := cv.basic;
    var e := Guarded(Get(b, "email"), Para([Plain("Email: "), Plain(Show(Get(b, "email")))]), Bare("0"));
    var c := Guarded(Get(b, "contact"), Para([Plain("Contact: "), Plain(Show(Get(b, "contact")))]), Bare("0"));
    var n := Guarded(Get(b, "intro"), Para([Note(Show(Get(b, "intro")))]), Bare("0"));
    assert Render(cv).details == e + c + n;
    assert "Email: " != "Contact: " by { assert "Email: "[0] != "Contact: "[0]; }
  }

  /** The empty-design page: every token at its default, the heading and accent colours differing. */
  lemma DefaultTokens()
    ensures TokensOf(map[]) == Tokens("Arial", "16px", "#1a1a1a", "#1e40af", "#2563eb")
  {
  }

  /** Heading and accent colours coincide exactly when an accent colour is set. */
  lemma HeadingFollowsAccent(design: Record)
    ensures TokensOf(design).heading == TokensOf(design).accent <==> Truthy(Get(design, "accentColor"))
  {
    if !Truthy(Get(design, "accentColor")) {
      assert "#1e40af"[2] != "#2563eb"[2];
    }
  }

  /** A font size of 0 (or none) falls back to 16px; a set size gets the `px` unit. */
  lemma FontSizeExamples()
    ensures TokensOf(map["fontSize" := Num(14)]).size == "14px"
    ensures TokensOf(map["fontSize" := Num(0)]).size == "16px"
    ensures TokensOf(map["fontSize" := Text("")]).size == "16px"
  {
    assert NatToString(14) == "14";
  }

  /** Skill chips: the label carries a `(p%)` suffix only for a truthy percentage; chips are in the accent colour. */
  lemma ChipExamples(accent: string)
    ensures ItemView(Skills, map["name" := Text("Go"), "percentage" := Num(90)], accent)
            == Chip("Go (90%)", accent, "1px solid " + accent, accent + "20")
    ensures ItemView(Skills, map["name" := Text("Go"), "percentage" := Num(0)], accent).caption == "Go "
    ensures ItemView(Skills, map["name" := Text("Go")], accent).caption == "Go "
    ensures ItemView(Skills, map["name" := Text("Go"), "percentage" := Text("85%")], accent).caption == "Go (85%%)"
  {
    assert NatToString(90) == "90";
  }

  /** Every chip and every link of the page is drawn in the accent colour. */
  lemma AccentUse(s: Section, r: Record, accent: string)
    ensures ItemView(s, r, accent).Chip? ==> ItemView(s, r, accent).color == accent
    ensures ItemView(s, r, accent).Bullet? ==>
      forall k :: 0 <= k < |ItemView(s, r, accent).spans| && ItemView(s, r, accent).spans[k].Link? ==>
        ItemView(s, r, accent).spans[k].color == accent
    ensures s == Skills <==> ItemView(s, r, accent).Chip?
  {
    var it := ItemView(s, r, accent);
    match s {
      case Education =>
        var g := Guarded(Field(r, "percentage"), Plain("- " + Show(Field(r, "percentage"))), Plain("0"));
        assert forall k :: 0 <= k < |g| ==> g[k].Plain?;
      case Experience =>
        var g := Guarded(Field(r, "location"), Plain("- " + Show(Field(r, "location"))), Plain("0"));
        assert forall k :: 0 <= k < |g| ==> g[k].Plain?;
      case Projects =>
        var g := Guarded(Field(r, "technologies"), Dim("(" + Show(Field(r, "technologies")) + ")"), Plain("0"));
        var h := Guarded(Field(r, "description"), Note(Show(Field(r, "description"))), Plain("0"));
        assert forall k :: 0 <= k < |g| ==> !g[k].Link?;
        assert forall k :: 0 <= k < |h| ==> !h[k].Link?;
      case Skills =>
      case Social =>
        var p := Guarded(Field(r, "platform"), Bold(Show(Field(r, "platform")) + ": "), Plain("0"));
        var l := Guarded(Field(r, "link"), Link(Show(Field(r, "link")), Show(Field(r, "link")), accent), Plain("0"));
        assert it.spans == p + l;
        assert forall k :: 0 <= k < |p| ==> !p[k].Link?;
    }
  }

  /** Optional record fields: a social entry always keeps the link text when the link is set. */
  lemma SocialEntry(r: Record, accent: string)
    ensures Truthy(Get(r, "link")) ==>
      Link(Show(Get(r, "link")), Show(Get(r, "link")), accent) in ItemView(Social, r, accent).spans
    ensures !Truthy(Get(r, "link")) && !Truthy(Get(r, "platform")) && Get(r, "link") != Some(Num(0)) && Get(r, "platform") != Some(Num(0))
      ==> ItemView(Social, r, accent).spans == []
  {
    var p := Guarded(Get(r, "platform"), Bold(Show(Get(r, "platform")) + ": "), Plain("0"));
    var l := Guarded(Get(r, "link"), Link(Show(Get(r, "link")), Show(Get(r, "link")), accent), Plain("0"));
    assert ItemView(Social, r, accent).spans == p + l;
    if Truthy(Get(r, "link")) { assert (p + l)[|p|] == l[0]; }
  }

  /** React's rendering of `0 && x`: a numeric 0 shows up as the text "0". */
  lemma ZeroGuard(r: Record, accent: string)
    requires Get(r, "percentage") == Some(Num(0))
    ensures ItemView(Education, r, accent).spans[4] == Plain("0")
  {
  }
}
