/** A printed route parses back exactly when every URI has its quotes in pairs. */
module RouteExactly {
  import opened Wrappers
  import opened Text
  import opened Params
  import opened ParamsRoundTrip
  import opened SipUris
  import opened SipUriRoundTrip
  import opened Addresses

  /** A URI that survives on its own, without angle brackets. */
  ghost predicate Bracketable(u: SipUri)
    requires Printable(u)
  {
    InDomain(u) && '<' !in Print(u) && '>' !in Print(u)
  }

  /**
   * One section and its comma. `open` is the state that unpaired quotes leave behind: inside quotes and brackets.
   * The section yields at most one address, and none when its quotes open that state.
   */
  lemma SectionAtMostOne(s: string, i: nat, prev: nat, blank: string, text: string, open: bool)
    requires At(s, i, blank + ("<" + (text + ">")) + ",") && (blank == "" || blank == " ") && prev <= i
    requires '<' !in text && '>' !in text
    ensures var n := i + |blank| + |text| + 3;
            var open' := open != OddQuotes(text);
            && n <= |s|
            && (open' ==> Scan(s, i, prev, open, open) == Scan(s, n, prev, true, true))
            && (!open' && Scan(s, i, prev, open, open).List? ==>
                  && Scan(s, n, n, false, false).List?
                  && |Scan(s, i, prev, open, open).addresses| == 1 + |Scan(s, n, n, false, false).addresses|)
  {
    hide ParseAddress, At, OddQuotes;
    SectionPieces(s, i, blank, text);
    var j := i + |blank|;
    assert Scan(s, i, prev, open, open) == Scan(s, j, prev, open, open);
    assert Scan(s, j, prev, open, open) == Scan(s, j + 1, prev, true, open);
    ScanInside(s, j + 1, text, prev, open);
  }

  ghost predicate AllPaired(uris: seq<SipUri>)
    requires forall k :: 0 <= k < |uris| ==> Printable(uris[k])
  {
    forall k :: 0 <= k < |uris| ==> !OddQuotes(Print(uris[k]))
  }

  /** An unpaired quote costs an address. */
  lemma {:induction false} AddressesCount(
    s: string, i: nat, prev: nat, uris: seq<SipUri>, items: seq<string>, blank: string, open: bool)
    requires forall k :: 0 <= k < |uris| ==> Printable(uris[k]) && Bracketable(uris[k])
    requires items == RouteItems(uris) && (blank == "" || blank == " ") && prev <= i
    requires At(s, i, Ended(Blanked(items, blank))) && i + |Ended(Blanked(items, blank))| == |s|
    requires Scan(s, i, prev, open, open).List?
    ensures var n := |Scan(s, i, prev, open, open).addresses|;
            n <= |uris| && (!open && !AllPaired(uris) ==> n < |uris|)
    decreases |uris|
  {
    hide InDomain, Print, Scan, At, OddQuotes, Printable;
    if uris == [] {
      EndOfScan(s, prev, open);
    } else {
      var text := Print(uris[0]);
      EndedFirst(items, blank);
      var first := blank + ("<" + (text + ">")) + ",";
      assert items[0] == "<" + (text + ">");
      AtParts(s, i, first, Ended(Blanked(items[1..], " ")));
      SectionAtMostOne(s, i, prev, blank, text, open);
      assert items[1..] == RouteItems(uris[1..]);
      var n := i + |first|;
      var open' := open != OddQuotes(text);
      AddressesCount(s, n, if open' then prev else n, uris[1..], items[1..], " ", open');
      if !AllPaired(uris) && AllPaired(uris[1..]) {
        FirstUnpaired(uris);
      }
    }
  }

  lemma FirstUnpaired(uris: seq<SipUri>)
    requires uris != [] && forall k :: 0 <= k < |uris| ==> Printable(uris[k])
    requires !AllPaired(uris)
    ensures OddQuotes(Print(uris[0])) || !AllPaired(uris[1..])
  {
    hide OddQuotes, Print, Printable;
    assert forall k :: 1 <= k < |uris| ==> uris[k] == uris[1..][k - 1];
  }

  lemma EndOfScan(s: string, prev: nat, open: bool)
    requires prev <= |s|
    ensures Scan(s, |s|, prev, open, open) == List([])
  {
  }

  /** A route of URIs that each survive alone parses back to the same URIs if and only if all quotes are in pairs. */
  lemma RouteRoundTripExactly(uris: seq<SipUri>)
    requires uris != [] && forall k :: 0 <= k < |uris| ==> Printable(uris[k]) && Bracketable(uris[k])
    ensures ParseRoute(PrintRoute(uris)) == Route(seq(|uris|, i requires 0 <= i < |uris| => Uri(uris[i])))
            <==> AllPaired(uris)
  {
    hide InDomain, Print, Scan, OddQuotes, Printable;
    if AllPaired(uris) {
      RouteRoundTrip(uris);
    } else if ParseRoute(PrintRoute(uris)).Route? {
      var items := RouteItems(uris);
      var s := PrintRoute(uris) + ",";
      JoinBlanked(items, "");
      assert "" + PrintRoute(uris) == PrintRoute(uris);
      JoinEnded(Blanked(items, ""));
      assert At(s, 0, Ended(Blanked(items, "")));
      AddressesCount(s, 0, 0, uris, items, "", false);
      assert |ParseRoute(PrintRoute(uris)).uris| < |uris|;
      assert |seq(|uris|, i requires 0 <= i < |uris| => Uri(uris[i]))| == |uris|;
    }
  }
}
