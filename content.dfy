/** The two kinds of user content, projects and videos, with the strings the
    pages derive from a kind: its type name, the `type-id` key of a like, and
    the detail-page link `/projects/<id>` or `/videos/<id>`. */
module Content {
  import opened JsString

  datatype Kind = ProjectKind | VideoKind

  /** The `type` field of a content row: "project" or "video". */
  function KindName(k: Kind): (r: string)
    ensures r != [] && '-' !in r
    ensures r[0] == (if k == ProjectKind then 'p' else 'v')
  {
    if k == ProjectKind then "project" else "video"
  }

  /** The key under which a like is remembered: `${type}-${id}`. */
  function LikeKey(k: Kind, id: string): string
  {
    KindName(k) + "-" + id
  }

  /** Distinct (kind, id) pairs never share a like key. */
  lemma LikeKeyInjective(k1: Kind, id1: string, k2: Kind, id2: string)
    ensures LikeKey(k1, id1) == LikeKey(k2, id2) <==> k1 == k2 && id1 == id2
  {
    var a, b := LikeKey(k1, id1), LikeKey(k2, id2);
    if a == b {
      assert a[0] == KindName(k1)[0] && b[0] == KindName(k2)[0];
      assert k1 == k2;
      var p := KindName(k1) + "-";
      assert a == p + id1 && b == p + id2;
      assert id1 == a[|p|..] && id2 == b[|p|..];
    }
  }

  /** The detail link of a content card: `/${type === "project" ? "projects" : "videos"}/${id}`. */
  function DetailLink(k: Kind, id: string): string
  {
    "/" + (if k == ProjectKind then "projects" else "videos") + "/" + id
  }

  /** Reads a detail link back into its kind and id. */
  function ParseDetailLink(link: string): (r: Option<(Kind, string)>)
  {
    if |link| >= 10 && link[..10] == "/projects/" then Some((ProjectKind, link[10..]))
    else if |link| >= 8 && link[..8] == "/videos/" then Some((VideoKind, link[8..]))
    else None
  }

  /** The link determines the kind and the id: reading it back gives both. */
  lemma DetailLinkRoundTrip(k: Kind, id: string)
    ensures ParseDetailLink(DetailLink(k, id)) == Some((k, id))
  {
    var link := DetailLink(k, id);
    if k == ProjectKind {
      assert link == "/projects/" + id;
      assert link[..10] == "/projects/";
      assert link[10..] == id;
    } else {
      assert link == "/videos/" + id;
      assert !(|link| >= 10 && link[..10] == "/projects/") by {
        assert link[1] == 'v';
      }
      assert link[..8] == "/videos/";
      assert link[8..] == id;
    }
  }

  /** Two cards share a link only if they show the same content. */
  lemma DetailLinkInjective(k1: Kind, id1: string, k2: Kind, id2: string)
    ensures DetailLink(k1, id1) == DetailLink(k2, id2) <==> k1 == k2 && id1 == id2
  {
    DetailLinkRoundTrip(k1, id1);
    DetailLinkRoundTrip(k2, id2);
  }
}
