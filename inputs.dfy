/** How the writing tool and the content-analysis tool read their input
    (components/WritingModule.tsx:27, components/MindmapModule.tsx:37-39). */
module Inputs {
  import opened Types
  import Text

  /** `dataUrl.split(',')[1]`: the piece after the first comma, up to the next comma or the end;
      absent when the URL holds no comma. */
  function DataUrlPayload(url: string): (r: Option<string>)
    ensures r.Some? <==> ',' in url
    ensures r.Some? ==> ',' !in r.value
    ensures r.Some? ==> exists head :: PayloadAfter(url, head, r.value)
  {
    var pieces := Text.Split(url, ',');
    Text.SplitHasSecondPieceIff(url, ',');
    if |pieces| >= 2 then
      PayloadIsSecondPiece(url);
      Some(pieces[1])
    else
      None
  }

  /** `url` starts with `head`, a comma and `payload`, and what follows `payload` is a comma or nothing;
      neither `head` nor `payload` holds a comma, so these are the first two commas. */
  predicate PayloadAfter(url: string, head: string, payload: string) {
    ',' !in head && ',' !in payload
    && |head| + 1 + |payload| <= |url|
    && url[..|head| + 1 + |payload|] == head + [','] + payload
    && (|head| + 1 + |payload| == |url| || url[|head| + 1 + |payload|] == ',')
  }

  lemma PayloadIsSecondPiece(url: string)
    requires |Text.Split(url, ',')| >= 2
    ensures PayloadAfter(url, Text.Split(url, ',')[0], Text.Split(url, ',')[1])
  {
    var pieces := Text.Split(url, ',');
    Text.JoinSplit(url, ',');
    var rest := Text.Join(pieces[2..], [',']);
    assert pieces[1..][1..] == pieces[2..];
    if |pieces| == 2 {
      assert url == pieces[0] + [','] + pieces[1];
    } else {
      assert url == pieces[0] + [','] + (pieces[1] + [','] + rest);
      assert url == (pieces[0] + [','] + pieces[1]) + ([','] + rest);
    }
  }

  /** The comma after `head` is the first comma of the URL. */
  lemma FirstComma(url: string, head: string, payload: string)
    requires PayloadAfter(url, head, payload)
    ensures url[|head|] == ',' && forall i :: 0 <= i < |head| ==> url[i] != ','
  {
    assert url[..|head| + 1 + |payload|][|head|] == ',';
    forall i | 0 <= i < |head| ensures url[i] != ',' {
      assert url[i] == url[..|head| + 1 + |payload|][i] == head[i];
    }
  }

  /** `PayloadAfter` pins the payload down: a URL has at most one. */
  lemma PayloadAfterUnique(url: string, h1: string, p1: string, h2: string, p2: string)
    requires PayloadAfter(url, h1, p1) && PayloadAfter(url, h2, p2)
    ensures h1 == h2 && p1 == p2
  {
    FirstComma(url, h1, p1);
    FirstComma(url, h2, p2);
    assert |h1| == |h2|;
    assert h1 == url[..|h1|] == h2;
    var start := |h1| + 1;
    assert |p1| == |p2|;
    assert p1 == url[start..start + |p1|] == p2;
  }

  /** The content a tool sends: the typed text, or the payload of the chosen image's data URL. */
  function Content(kind: InputKind, text: string, image: Option<string>): (r: Option<string>)
    ensures kind == TextInput ==> r == Some(text)
    ensures kind == ImageInput ==> (r.Some? <==> image.Some? && ',' in image.value)
    ensures kind == ImageInput && r.Some? ==>
      r == DataUrlPayload(image.value) && exists head :: PayloadAfter(image.value, head, r.value)
  {
    match kind
    case TextInput => Some(text)
    case ImageInput => if image.None? then None else DataUrlPayload(image.value)
  }

  /** JavaScript truthiness of the content: present and not the empty string. */
  predicate Present(content: Option<string>) {
    content.Some? && content.value != ""
  }
}
