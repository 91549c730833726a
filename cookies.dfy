/**
 * The `Cookie` request header built from what the caller resupplies: either the raw
 * `Set-Cookie` strings of earlier responses, or one already-joined string.
 */
module Cookies {
  import opened Text

  /** The `cookies` field of a request body. A value that is neither an array nor a string
      (`null`, `undefined`, a number, an object) is `NonString`, and only its truthiness
      matters to the handlers. */
  datatype CookieInput =
    | CookieList(items: seq<string>)
    | CookieText(text: string)
    | NonString(truthy: bool)

  /** `!!cookies`: an array is truthy even when empty. */
  predicate CookiesGiven(c: CookieInput) {
    match c
    case CookieList(_) => true
    case CookieText(t) => t != ""
    case NonString(truthy) => truthy
  }

  /** The `name=value` pair of one raw `Set-Cookie` string: the text before its first `;`,
      trimmed. It never holds a `;` and has no white space at either end. */
  function CookiePair(raw: string): (pair: string)
    ensures ';' !in pair && Trimmed(pair)
    ensures ';' !in raw ==> pair == Trim(raw)
  {
    TrimKeepsChars(Split(raw, ';')[0]);
    Trim(Split(raw, ';')[0])
  }

  /** `Array.prototype.join('; ')`. */
  function JoinPairs(pairs: seq<string>): string {
    if pairs == [] then ""
    else if |pairs| == 1 then pairs[0]
    else pairs[0] + "; " + JoinPairs(pairs[1..])
  }

  function PairsOf(items: seq<string>): (pairs: seq<string>)
    ensures |pairs| == |items|
    ensures forall i :: 0 <= i < |items| ==> pairs[i] == CookiePair(items[i])
  {
    seq(|items|, i requires 0 <= i < |items| => CookiePair(items[i]))
  }

  /** `getCookiesForHeader`: an array becomes the `"; "`-join of its elements' pairs, a string
      passes through unchanged, and anything else becomes the empty header. */
  function CookieHeader(input: CookieInput): (header: string)
    ensures input.CookieText? ==> header == input.text
    ensures input.NonString? ==> header == ""
    ensures input.CookieList? && input.items == [] ==> header == ""
    ensures input.CookieList? && |input.items| == 1 ==> header == CookiePair(input.items[0])
  {
    match input
    case CookieList(items) => JoinPairs(PairsOf(items))
    case CookieText(text) => text
    case NonString(_) => ""
  }

  /** How a server reads a `Cookie` header back: split at `;` and trim each piece. */
  function HeaderPairs(header: string): (pairs: seq<string>)
    ensures |pairs| == |Split(header, ';')|
  {
    var pieces := Split(header, ';');
    seq(|pieces|, i requires 0 <= i < |pieces| => Trim(pieces[i]))
  }

  /** Splitting a join of `;`-free pieces gives the pieces back, each one after the first
      with the blank of the `"; "` separator in front. */
  lemma {:induction false} SplitJoined(pairs: seq<string>)
    requires |pairs| > 0
    requires forall i :: 0 <= i < |pairs| ==> ';' !in pairs[i]
    ensures var pieces := Split(JoinPairs(pairs), ';');
      && |pieces| == |pairs|
      && pieces[0] == pairs[0]
      && forall i :: 0 < i < |pairs| ==> pieces[i] == " " + pairs[i]
  {
    if |pairs| == 1 {
      assert JoinPairs(pairs) == pairs[0];
    } else {
      var rest := JoinPairs(pairs[1..]);
      assert JoinPairs(pairs) == pairs[0] + [';'] + ([' '] + rest);
      SplitPrefix(pairs[0], ';', [' '] + rest);
      SplitJoined(pairs[1..]);
      var tail := Split(rest, ';');
      SplitCons(' ', rest, ';');
      var pieces := [pairs[0]] + ([[' '] + tail[0]] + tail[1..]);
      assert Split(JoinPairs(pairs), ';') == pieces;
      forall i | 0 < i < |pairs|
        ensures pieces[i] == " " + pairs[i]
      {
        if i > 1 {
          assert pieces[i] == tail[i - 1];
        }
      }
    }
  }

  /** Round trip: reading the header of a non-empty cookie array back yields exactly one pair
      per element, in the array's order, each with its attributes (`Path`, `Expires`, ...)
      dropped. */
  lemma {:induction false} HeaderRoundTrip(items: seq<string>)
    requires |items| > 0
    ensures HeaderPairs(CookieHeader(CookieList(items))) == PairsOf(items)
  {
    var pairs := PairsOf(items);
    var header := JoinPairs(pairs);
    assert CookieHeader(CookieList(items)) == header;
    ReadBack(pairs);
  }

  /** The heart of the round trip, over the pairs themselves. */
  lemma {:induction false} ReadBack(pairs: seq<string>)
    requires |pairs| > 0
    requires forall i :: 0 <= i < |pairs| ==> ';' !in pairs[i] && Trimmed(pairs[i])
    ensures HeaderPairs(JoinPairs(pairs)) == pairs
  {
    SplitJoined(pairs);
    var pieces := Split(JoinPairs(pairs), ';');
    var back := HeaderPairs(JoinPairs(pairs));
    forall i | 0 <= i < |pairs|
      ensures back[i] == pairs[i]
    {
      TrimPiece(pieces[i], pairs[i]);
    }
  }

  lemma TrimPiece(piece: string, pair: string)
    requires Trimmed(pair)
    requires piece == pair || piece == " " + pair
    ensures Trim(piece) == pair
  {
    TrimOfTrimmed(pair);
    if piece != pair {
      TrimAfterWs(' ', pair);
    }
  }

  /** Formatting is idempotent: feeding the formatted pairs back in as the cookie array gives
      the same header. */
  lemma FormattingIdempotent(items: seq<string>)
    ensures CookieHeader(CookieList(PairsOf(items))) == CookieHeader(CookieList(items))
  {
    var pairs := PairsOf(items);
    forall i | 0 <= i < |pairs|
      ensures CookiePair(pairs[i]) == pairs[i]
    {
      TrimOfTrimmed(pairs[i]);
    }
    assert PairsOf(pairs) == pairs;
  }
}
