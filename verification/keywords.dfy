/**
  The post-processing of the keyword extractor's reply: the reply is split at
  commas, every piece is stripped of surrounding whitespace, and the pieces
  left empty are dropped, keeping the others in reply order.

  The list walk takes the per-piece operation as a parameter, so that the facts
  about order and membership are proved once, independently of how stripping works.
 */
module Keywords {
  import opened Text

  /** Applies `strip` to every piece and keeps the non-empty results, in order. */
  function Clean(strip: string -> string, pieces: seq<string>): (r: seq<string>)
    ensures |r| <= |pieces|
    ensures forall k :: 0 <= k < |r| ==> |r[k]| > 0
  {
    if |pieces| == 0 then []
    else
      var t := strip(pieces[0]);
      (if |t| > 0 then [t] else []) + Clean(strip, pieces[1..])
  }

  /** `[kw.strip() for kw in reply.split(",") if kw.strip()]`. */
  function KeywordList(reply: string): (r: seq<string>)
    ensures |r| <= |Split(reply, ',')|
    ensures forall k :: 0 <= k < |r| ==> |r[k]| > 0
  {
    Clean(Strip, Split(reply, ','))
  }

  /** A string is kept exactly when it is the result for some piece and not empty. */
  lemma {:induction false} CleanMembers(strip: string -> string, pieces: seq<string>, x: string)
    ensures x in Clean(strip, pieces) <==> |x| > 0 && exists k :: 0 <= k < |pieces| && strip(pieces[k]) == x
  {
    if |pieces| > 0 {
      CleanMembers(strip, pieces[1..], x);
      var t := strip(pieces[0]);
      assert Clean(strip, pieces) == (if |t| > 0 then [t] else []) + Clean(strip, pieces[1..]);
      if |x| > 0 && exists k :: 0 <= k < |pieces| && strip(pieces[k]) == x {
        var k :| 0 <= k < |pieces| && strip(pieces[k]) == x;
        if k > 0 {
          assert strip(pieces[1..][k - 1]) == x;
        }
      }
      if x in Clean(strip, pieces[1..]) {
        var k :| 0 <= k < |pieces[1..]| && strip(pieces[1..][k]) == x;
        assert strip(pieces[k + 1]) == x;
      }
    }
  }

  /** Cleaning distributes over concatenation, so results keep the order of their pieces. */
  lemma {:induction false} CleanAppend(strip: string -> string, a: seq<string>, b: seq<string>)
    ensures Clean(strip, a + b) == Clean(strip, a) + Clean(strip, b)
  {
    if |a| == 0 {
      assert a + b == b;
    } else {
      var t := strip(a[0]);
      var head := if |t| > 0 then [t] else [];
      CleanAppend(strip, a[1..], b);
      assert (a + b)[0] == a[0] && (a + b)[1..] == a[1..] + b;
      assert Clean(strip, a + b) == head + (Clean(strip, a[1..]) + Clean(strip, b));
      assert head + (Clean(strip, a[1..]) + Clean(strip, b)) == (head + Clean(strip, a[1..])) + Clean(strip, b);
    }
  }

  /** Non-empty pieces that `strip` leaves alone come through unchanged. */
  lemma {:induction false} CleanIdentity(strip: string -> string, pieces: seq<string>)
    requires forall k :: 0 <= k < |pieces| ==> |pieces[k]| > 0 && strip(pieces[k]) == pieces[k]
    ensures Clean(strip, pieces) == pieces
  {
    if |pieces| > 0 {
      CleanIdentity(strip, pieces[1..]);
      assert [pieces[0]] + pieces[1..] == pieces;
    }
  }

  /** Stripping only removes characters, so it adds none. */
  lemma StripKeepsAbsent(s: string, c: char)
    requires c !in s
    ensures c !in Strip(s)
  {
    StripIsWindow(s);
  }

  /** A string is an item exactly when it is the stripped form of a comma-separated piece and not empty. */
  lemma KeywordsMembers(reply: string, x: string)
    ensures x in KeywordList(reply) <==>
      |x| > 0 && exists k :: 0 <= k < |Split(reply, ',')| && Strip(Split(reply, ',')[k]) == x
  {
    var pieces := Split(reply, ',');
    CleanMembers(Strip, pieces, x);
    if x in KeywordList(reply) {
      var k :| 0 <= k < |pieces| && Strip(pieces[k]) == x;
    }
  }

  /** Every item is non-empty, has no surrounding whitespace and holds no comma. */
  lemma KeywordsWellFormed(reply: string, item: string)
    requires item in KeywordList(reply)
    ensures |item| > 0 && Trimmed(item) && ',' !in item
  {
    var pieces := Split(reply, ',');
    KeywordsMembers(reply, item);
    var k :| 0 <= k < |pieces| && Strip(pieces[k]) == item;
    SplitPiecesFree(reply, ',');
    StripKeepsAbsent(pieces[k], ',');
  }

  /** The items before a comma come first, then the items after it. */
  lemma KeywordsAppend(a: string, b: string)
    ensures KeywordList(a + "," + b) == KeywordList(a) + KeywordList(b)
  {
    assert a + "," + b == a + [','] + b;
    SplitAtSeparator(a, b, ',');
    CleanAppend(Strip, Split(a, ','), Split(b, ','));
  }

  /** A reply without a comma gives its stripped self, or nothing when it is all whitespace (the empty reply included). */
  lemma KeywordsSingle(reply: string)
    requires ',' !in reply
    ensures KeywordList(reply) == if AllSpace(reply) then [] else [Strip(reply)]
  {
    SplitWithoutSeparator(reply, ',');
    StripEmpty(reply);
    assert [reply][1..] == [];
  }

  /** Joining well-formed items with commas and extracting the keywords gives the items back. */
  lemma KeywordsJoin(items: seq<string>)
    requires |items| >= 1
    requires forall k :: 0 <= k < |items| ==> |items[k]| > 0 && Trimmed(items[k]) && ',' !in items[k]
    ensures KeywordList(Join(items, ',')) == items
  {
    SplitJoin(items, ',');
    forall k | 0 <= k < |items|
      ensures Strip(items[k]) == items[k]
    {
    }
    CleanIdentity(Strip, items);
  }
}
