/**
 * The gallery of saved CVs (src/components/ExistingCVs.js): one card per
 * CV, a confirmed delete that drops the CV from the feed, and share links
 * that carry the CV's public address.
 */
module Gallery {
  import opened Js
  import opened Document
  import opened Feed
  import Uri

  /** `cvs.filter((cv) => cv._id !== id)` */
  function WithoutId(cvs: seq<StoredCv>, id: string): (r: seq<StoredCv>)
    ensures forall x :: x in r <==> x in cvs && x.id != id
    ensures |r| <= |cvs|
  {
    if cvs == [] then []
    else (if cvs[0].id != id then [cvs[0]] else []) + WithoutId(cvs[1..], id)
  }

  /** The filter keeps order: filtering a concatenation is concatenating the filtered parts. */
  lemma {:induction false} WithoutIdConcat(a: seq<StoredCv>, b: seq<StoredCv>, id: string)
    ensures WithoutId(a + b, id) == WithoutId(a, id) + WithoutId(b, id)
  {
    if a != [] {
      assert (a + b)[0] == a[0];
      assert (a + b)[1..] == a[1..] + b;
      WithoutIdConcat(a[1..], b, id);
    } else {
      assert a + b == b;
    }
  }

  /** Nothing is removed when no CV has the id; filtering twice is filtering once. */
  lemma {:induction false} WithoutIdAbsent(cvs: seq<StoredCv>, id: string)
    requires forall x :: x in cvs ==> x.id != id
    ensures WithoutId(cvs, id) == cvs
  {
    if cvs != [] {
      assert cvs[0] in cvs;
      assert forall x :: x in cvs[1..] ==> x in cvs;
      WithoutIdAbsent(cvs[1..], id);
      assert [cvs[0]] + cvs[1..] == cvs;
    }
  }

  lemma WithoutIdIdempotent(cvs: seq<StoredCv>, id: string)
    ensures WithoutId(WithoutId(cvs, id), id) == WithoutId(cvs, id)
  {
    WithoutIdAbsent(WithoutId(cvs, id), id);
  }

  /** How a DELETE ends: `fetch` resolves with some HTTP status, or rejects on a network failure. */
  datatype DeleteResponse = Responded(ok: bool) | NetworkError

  /** `${Url}/cv/${id}`, the CV's public address. */
  function ShareUrl(base: string, id: string): string { base + "/cv/" + id }

  const WhatsAppPrefix := "https://wa.me/?text=Check%20out%20my%20CV:%20"
  const LinkedInPrefix := "https://www.linkedin.com/sharing/share-offsite/?url="

  /** The WhatsApp link: a fixed message followed by the encoded address, which decodes back to it. */
  function WhatsAppLink(base: string, id: string): (link: string)
    ensures |link| >= |WhatsAppPrefix| && link[..|WhatsAppPrefix|] == WhatsAppPrefix
    ensures Uri.Decode(link[|WhatsAppPrefix|..]) == Some(ShareUrl(base, id))
  {
    var q := Uri.Encode(ShareUrl(base, id));
    Uri.DecodeEncode(ShareUrl(base, id));
    assert (WhatsAppPrefix + q)[|WhatsAppPrefix|..] == q;
    WhatsAppPrefix + q
  }

  /** The LinkedIn link: the encoded address as the `url` parameter, which decodes back to it. */
  function LinkedInLink(base: string, id: string): (link: string)
    ensures |link| >= |LinkedInPrefix| && link[..|LinkedInPrefix|] == LinkedInPrefix
    ensures Uri.Decode(link[|LinkedInPrefix|..]) == Some(ShareUrl(base, id))
  {
    var q := Uri.Encode(ShareUrl(base, id));
    Uri.DecodeEncode(ShareUrl(base, id));
    assert (LinkedInPrefix + q)[|LinkedInPrefix|..] == q;
    LinkedInPrefix + q
  }

  /** The query part of each link is the encoded address. */
  lemma LinkQueries(base: string, id: string)
    ensures WhatsAppLink(base, id)[|WhatsAppPrefix|..] == Uri.Encode(ShareUrl(base, id))
    ensures LinkedInLink(base, id)[|LinkedInPrefix|..] == Uri.Encode(ShareUrl(base, id))
  {
    var q := Uri.Encode(ShareUrl(base, id));
    assert (WhatsAppPrefix + q)[|WhatsAppPrefix|..] == q;
    assert (LinkedInPrefix + q)[|LinkedInPrefix|..] == q;
  }

  /**
   * The encoded address never contains `&`, `#` or `=`, so whatever the
   * base address or id holds, it stays one query value and ends the link.
   */
  lemma ShareParameterIsOneValue(base: string, id: string)
    ensures var q := WhatsAppLink(base, id)[|WhatsAppPrefix|..];
      forall k :: 0 <= k < |q| ==> q[k] != '&' && q[k] != '#' && q[k] != '='
    ensures var q := LinkedInLink(base, id)[|LinkedInPrefix|..];
      forall k :: 0 <= k < |q| ==> q[k] != '&' && q[k] != '#' && q[k] != '='
  {
    LinkQueries(base, id);
    Uri.EncodeIsOneValue(ShareUrl(base, id));
  }

  /** The card's title: `basic.name || "Untitled CV"`. */
  function CardTitle(cv: Cv): (t: string)
    ensures t != ""
    ensures Truthy(Get(cv.basic, "name")) ==> t == Show(Get(cv.basic, "name"))
    ensures !Truthy(Get(cv.basic, "name")) ==> t == "Untitled CV"
  {
    Or(Get(cv.basic, "name"), "Untitled CV")
  }

  /** The card's intro line: `basic.intro || ""`, empty exactly when the intro is falsy. */
  function CardIntro(cv: Cv): (t: string)
    ensures t == "" <==> !Truthy(Get(cv.basic, "intro"))
    ensures Truthy(Get(cv.basic, "intro")) ==> t == Show(Get(cv.basic, "intro"))
  {
    Or(Get(cv.basic, "intro"), "")
  }

  class CvGallery {
    /** The id whose delete confirmation is open. */
    var deleteTarget: Option<string>
    /** The id whose share dialog is open. */
    var shareTarget: Option<string>

    constructor ()
      ensures deleteTarget.None? && shareTarget.None?
    {
      deleteTarget := None;
      shareTarget := None;
    }

    method AskDelete(id: string)
      modifies this`deleteTarget
      ensures deleteTarget == Some(id)
    {
      deleteTarget := Some(id);
    }

    method AskShare(id: string)
      modifies this`shareTarget
      ensures shareTarget == Some(id)
    {
      shareTarget := Some(id);
    }

    /**
     * confirmDelete as written: `fetch` rejects only on a network failure, so
     * any HTTP answer, a refusal included, drops the CV from the list and
     * closes the dialog; a network failure only alerts.
     */
    method ConfirmDelete(feed: CvFeed, id: string, r: DeleteResponse)
      modifies feed`cvs, this`deleteTarget
      ensures r.Responded? ==> feed.cvs == WithoutId(old(feed.cvs), id) && deleteTarget.None?
      ensures r.NetworkError? ==> feed.cvs == old(feed.cvs) && deleteTarget == old(deleteTarget)
    {
      if r.Responded? {
        feed.cvs := WithoutId(feed.cvs, id);
        deleteTarget := None;
      }
    }

    /** The delete that checks `response.ok`: a refused DELETE leaves the list and the dialog as they were. */
    method ConfirmDeleteChecked(feed: CvFeed, id: string, r: DeleteResponse)
      modifies feed`cvs, this`deleteTarget
      ensures r == Responded(true) ==> feed.cvs == WithoutId(old(feed.cvs), id) && deleteTarget.None?
      ensures r != Responded(true) ==> feed.cvs == old(feed.cvs) && deleteTarget == old(deleteTarget)
    {
      if r == Responded(true) {
        ConfirmDelete(feed, id, r);
      }
    }

    /** "Share on WhatsApp": opens the link and closes the share dialog. */
    method ShareOnWhatsApp(base: string, id: string) returns (url: string)
      modifies this`shareTarget
      ensures url == WhatsAppLink(base, id) && shareTarget.None?
    {
      url := WhatsAppLink(base, id);
      shareTarget := None;
    }

    /** "Share on LinkedIn": opens the link and closes the share dialog. */
    method ShareOnLinkedIn(base: string, id: string) returns (url: string)
      modifies this`shareTarget
      ensures url == LinkedInLink(base, id) && shareTarget.None?
    {
      url := LinkedInLink(base, id);
      shareTarget := None;
    }
  }

  /** A refused DELETE (say HTTP 403) still removes the card, although the server kept the CV. */
  method RefusedDeleteRemovesCard(cv: Cv) returns (feed: CvFeed, gallery: CvGallery)
    ensures feed.cvs == [] && gallery.deleteTarget.None?
  {
    feed := new CvFeed();
    feed.cvs := [StoredCv("a1", cv)];
    gallery := new CvGallery();
    gallery.AskDelete("a1");
    gallery.ConfirmDelete(feed, "a1", Responded(false));
  }

  /** With the checked delete the refused CV stays listed. */
  method RefusedCheckedDeleteKeepsCard(cv: Cv) returns (feed: CvFeed, gallery: CvGallery)
    ensures feed.cvs == [StoredCv("a1", cv)] && gallery.deleteTarget == Some("a1")
  {
    feed := new CvFeed();
    feed.cvs := [StoredCv("a1", cv)];
    gallery := new CvGallery();
    gallery.AskDelete("a1");
    gallery.ConfirmDeleteChecked(feed, "a1", Responded(false));
  }
}
