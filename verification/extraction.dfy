/**
 * Content extraction: the plain text and the image references of a draft,
 * as the review gathers them before the sensitive-word check.
 */
module Extraction {
  import opened Types

  /** What one segment adds to the plain text. */
  function SegmentText(s: Segment): string
  {
    if s.kind == "text" then s.value else ""
  }

  /** What one segment adds to the image list. */
  function SegmentImages(s: Segment): seq<string>
  {
    if s.kind == "image" then [s.value] else []
  }

  /** The values of the "text" segments of `body`, concatenated in body order. */
  function BodyText(body: seq<Segment>): string
  {
    if body == [] then "" else BodyText(body[..|body| - 1]) + SegmentText(body[|body| - 1])
  }

  /** The values of the "image" segments of `body`, in body order. */
  function BodyImages(body: seq<Segment>): seq<string>
  {
    if body == [] then [] else BodyImages(body[..|body| - 1]) + SegmentImages(body[|body| - 1])
  }

  lemma {:induction false} BodyTextAppend(a: seq<Segment>, b: seq<Segment>)
    ensures BodyText(a + b) == BodyText(a) + BodyText(b)
    ensures BodyImages(a + b) == BodyImages(a) + BodyImages(b)
    decreases |b|
  {
    if b == [] {
      assert a + b == a;
    } else {
      var b' := b[..|b| - 1];
      assert (a + b)[..|a + b| - 1] == a + b';
      assert (a + b)[|a + b| - 1] == b[|b| - 1];
      BodyTextAppend(a, b');
    }
  }

  /** A segment whose type is neither "text" nor "image" contributes nothing. */
  lemma {:induction false} OtherSegmentIgnored(a: seq<Segment>, s: Segment, b: seq<Segment>)
    requires s.kind != "text" && s.kind != "image"
    ensures BodyText(a + [s] + b) == BodyText(a + b)
    ensures BodyImages(a + [s] + b) == BodyImages(a + b)
  {
    var front := a + [s];
    assert a + [s] + b == front + b;
    BodyTextAppend(front, b);
    BodyTextAppend(a, b);
    assert front[..|front| - 1] == a;
    assert BodyText(front) == BodyText(a);
    assert BodyImages(front) == BodyImages(a);
  }

  /** Every text segment's value appears, at a definite offset, in the plain text. */
  lemma {:induction false} TextSegmentInBodyText(body: seq<Segment>, k: int)
    requires 0 <= k < |body| && body[k].kind == "text"
    ensures exists a, c :: BodyText(body) == a + body[k].value + c
  {
    var pre, post := body[..k], body[k + 1..];
    assert body == pre + [body[k]] + post;
    BodyTextAppend(pre + [body[k]], post);
    BodyTextAppend(pre, [body[k]]);
    assert [body[k]][..0] == [];
    assert BodyText(body) == BodyText(pre) + body[k].value + BodyText(post);
  }

  /** An image is extracted from the body exactly when some "image" segment holds it. */
  lemma {:induction false} BodyImagesMembers(body: seq<Segment>, x: string)
    ensures x in BodyImages(body) <==> exists k :: 0 <= k < |body| && body[k].kind == "image" && body[k].value == x
    decreases |body|
  {
    if body != [] {
      var init := body[..|body| - 1];
      BodyImagesMembers(init, x);
      if x in BodyImages(init) {
        var k :| 0 <= k < |init| && init[k].kind == "image" && init[k].value == x;
        assert body[k] == init[k];
      }
      if k :| 0 <= k < |body| && body[k].kind == "image" && body[k].value == x {
        if k < |init| {
          assert init[k] == body[k];
        }
      }
    }
  }

  // ---- String.split(",") of the cover image list ----

  /** The comma-separated fields of `s`, empty ones included. */
  function SplitFields(s: string): (r: seq<string>)
    ensures |r| >= 1
  {
    if s == [] then [""]
    else
      var rest := SplitFields(s[1..]);
      if s[0] == ',' then [""] + rest else [[s[0]] + rest[0]] + rest[1..]
  }

  /** The fields joined back with commas. */
  function Join(parts: seq<string>): string
  {
    if parts == [] then ""
    else if |parts| == 1 then parts[0]
    else parts[0] + "," + Join(parts[1..])
  }

  /** Joining the fields with commas gives back `s`, and no field holds a comma. */
  lemma {:induction false} SplitFieldsJoin(s: string)
    ensures Join(SplitFields(s)) == s
    ensures forall f :: f in SplitFields(s) ==> ',' !in f
  {
    if s != [] {
      var rest := SplitFields(s[1..]);
      SplitFieldsJoin(s[1..]);
      if s[0] == ',' {
        assert ([""] + rest)[1..] == rest;
        assert s == [','] + s[1..];
      } else {
        var r := [[s[0]] + rest[0]] + rest[1..];
        assert r[1..] == rest[1..];
        if |rest| == 1 {
          assert s == [s[0]] + s[1..];
        } else {
          assert Join(rest) == rest[0] + "," + Join(rest[1..]);
          assert s == [s[0]] + s[1..];
        }
        forall f | f in r ensures ',' !in f {
          if f == r[0] {
            assert rest[0] in rest;
          } else {
            assert f in rest;
          }
        }
      }
    }
  }

  /** When `s` does not end with a comma, its last field is not empty. */
  lemma {:induction false} LastFieldNonEmpty(s: string)
    requires s != [] && s[|s| - 1] != ','
    ensures SplitFields(s)[|SplitFields(s)| - 1] != ""
  {
    var rest := SplitFields(s[1..]);
    if |s| > 1 {
      LastFieldNonEmpty(s[1..]);
    }
  }

  /** The fields with the trailing empty ones removed. */
  function DropTrailingEmpty(parts: seq<string>): (r: seq<string>)
    ensures |r| <= |parts| && r == parts[..|r|]
    ensures forall i :: |r| <= i < |parts| ==> parts[i] == ""
    ensures r == [] || r[|r| - 1] != ""
  {
    if parts != [] && parts[|parts| - 1] == "" then DropTrailingEmpty(parts[..|parts| - 1]) else parts
  }

  /** Java's `s.split(",")`: the input itself when it holds no comma, otherwise the fields without trailing empty ones. */
  function JavaSplit(s: string): (r: seq<string>)
    ensures ',' !in s ==> r == [s]
    ensures ',' in s ==> |r| <= |SplitFields(s)| && r == SplitFields(s)[..|r|] && (r == [] || r[|r| - 1] != "")
    ensures ',' in s ==> forall i :: |r| <= i < |SplitFields(s)| ==> SplitFields(s)[i] == ""
  {
    if ',' !in s then [s] else DropTrailingEmpty(SplitFields(s))
  }

  /**
   * The parts of a split hold no comma, and when `s` does not end with a
   * comma no field is removed and the parts join back to `s`.
   */
  lemma {:induction false} JavaSplitFields(s: string)
    ensures forall f :: f in JavaSplit(s) ==> ',' !in f
    ensures s != [] && s[|s| - 1] != ',' ==> JavaSplit(s) == SplitFields(s) && Join(JavaSplit(s)) == s
  {
    SplitFieldsJoin(s);
    if ',' in s {
      assert forall f :: f in JavaSplit(s) ==> f in SplitFields(s);
    }
    if s != [] && s[|s| - 1] != ',' {
      LastFieldNonEmpty(s);
      if ',' !in s {
        NoCommaSingleField(s);
      }
    }
  }

  lemma {:induction false} NoCommaSingleField(s: string)
    requires ',' !in s
    ensures SplitFields(s) == [s]
  {
    if s != [] {
      assert ',' !in s[1..];
      NoCommaSingleField(s[1..]);
      assert s == [s[0]] + s[1..];
    }
  }

  // ---- the extractor ----

  /** The cover images added after the body images: only for a non-null list and a layout other than 0. */
  function CoverImages(images: Option<string>, layout: int): seq<string>
  {
    if images.Some? && layout != 0 then JavaSplit(images.value) else []
  }

  /** The result of extraction: the plain text ("content") and the image list ("images"). */
  datatype Extracted = Extracted(content: string, images: seq<string>)

  /**
   * Walks the parsed body once, appending text values to the text and image
   * values to the image list, then appends the cover images. None stands for
   * the parser's exception on a body that is not a JSON array of segments.
   */
  method HandleTextAndImages(news: WmNews) returns (r: Option<Extracted>)
    ensures news.body.None? ==> r.None?
    ensures news.body.Some? ==>
      r == Some(Extracted(BodyText(news.body.value),
                          BodyImages(news.body.value) + CoverImages(news.images, news.layout)))
  {
    if news.body.None? {
      return None;
    }
    var contentList := news.body.value;
    var sb: string := "";
    var images: seq<string> := [];
    var i := 0;
    while i < |contentList|
      invariant 0 <= i <= |contentList|
      invariant sb == BodyText(contentList[..i])
      invariant images == BodyImages(contentList[..i])
    {
      var segment := contentList[i];
      assert contentList[..i + 1][..i] == contentList[..i];
      if segment.kind == "text" {
        sb := sb + segment.value;
      }
      if segment.kind == "image" {
        images := images + [segment.value];
      }
      i := i + 1;
    }
    assert contentList[..i] == contentList;
    assert sb == BodyText(contentList);
    assert images == BodyImages(contentList);
    if news.images.Some? && news.layout != 0 {
      var split := JavaSplit(news.images.value);
      images := images + split;
    } else {
      assert images + CoverImages(news.images, news.layout) == images;
    }
    r := Some(Extracted(sb, images));
  }
}
