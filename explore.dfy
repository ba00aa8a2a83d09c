/** The content card of the explore page: its kind badge, its detail link and
    its relative-time label (the hours-first variant of `TimeAgo`). */
module Explore {
  import opened JsString
  import opened Content
  import opened TimeAgo

  /** The badge in the card's corner. */
  function Badge(k: Kind): (r: string)
    ensures r == "Dự án" <==> k == ProjectKind
    ensures r == "Video" <==> k == VideoKind
  {
    assert "Dự án"[0] != "Video"[0];
    match k
    case ProjectKind => "Dự án"
    case VideoKind => "Video"
  }

  /** The three labels a card derives from its item. */
  datatype CardLabels = CardLabels(badge: string, link: string, age: string)

  function Card(k: Kind, id: string, diffMs: int, localeDate: string): CardLabels
  {
    CardLabels(Badge(k), DetailLink(k, id), FormatTimeAgoHours(diffMs, localeDate))
  }

  /** The badge and the link name the same kind, and the link leads to the item. */
  lemma CardConsistent(k: Kind, id: string, diffMs: int, localeDate: string)
    ensures ParseDetailLink(Card(k, id, diffMs, localeDate).link) == Some((k, id))
    ensures Card(k, id, diffMs, localeDate).badge == "Dự án" <==>
      ParseDetailLink(Card(k, id, diffMs, localeDate).link).value.0 == ProjectKind
  {
    DetailLinkRoundTrip(k, id);
  }
}
