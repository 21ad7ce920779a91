/**
 * CorsResponseFilter: the servlet filter that puts CORS headers on every response, and answers
 * preflight requests itself. Its origin list is three fixed origins followed by the entries of the
 * `CORS_ALLOWED_ORIGINS` environment variable; the variable's value is a parameter here.
 */
module CorsResponseFilter {
  import opened Wrappers
  import Strings
  import Http

  const DefaultOrigins: seq<string> := ["http://localhost:3000", "http://127.0.0.1:3000", "https://shopifyr.vercel.app"]

  const AllowedMethods := "GET, POST, PUT, DELETE, OPTIONS"
  const AllowedHeaders := "Authorization, Content-Type, Accept"
  const AllowOrigin := "Access-Control-Allow-Origin"
  const AllowCredentials := "Access-Control-Allow-Credentials"
  const AllowMethodsHeader := "Access-Control-Allow-Methods"
  const AllowHeadersHeader := "Access-Control-Allow-Headers"
  const MaxAge := "Access-Control-Max-Age"

  /** The trimmed, non-empty pieces, in order. */
  function Kept(pieces: seq<string>): seq<string>
    decreases |pieces|
  {
    if |pieces| == 0 then []
    else
      var t := Strings.Trim(pieces[|pieces| - 1]);
      Kept(pieces[..|pieces| - 1]) + (if t != "" then [t] else [])
  }

  /** Each kept entry is the non-empty trim of some piece. */
  lemma {:induction false} KeptFromPieces(pieces: seq<string>, k: int)
    requires 0 <= k < |Kept(pieces)|
    ensures Kept(pieces)[k] != ""
    ensures exists j :: 0 <= j < |pieces| && Kept(pieces)[k] == Strings.Trim(pieces[j])
    decreases |pieces|
  {
    var pre := pieces[..|pieces| - 1];
    if k < |Kept(pre)| {
      KeptFromPieces(pre, k);
      var j :| 0 <= j < |pre| && Kept(pre)[k] == Strings.Trim(pre[j]);
      assert pieces[j] == pre[j];
    }
  }

  /** The origin list the filter is built with, given the environment variable's value. */
  function OriginList(extra: Option<string>): seq<string> {
    DefaultOrigins + (if extra.Some? && !Strings.IsBlank(extra.value) then Kept(Strings.Split(extra.value, ',')) else [])
  }

  /** One more piece adds its trim when that is not empty. */
  lemma KeptStep(pieces: seq<string>, i: int)
    requires 0 <= i < |pieces|
    ensures var t := Strings.Trim(pieces[i]);
      Kept(pieces[..i + 1]) == Kept(pieces[..i]) + (if t != "" then [t] else [])
  {
    assert pieces[..i + 1][..i] == pieces[..i];
  }

  /** `buildOrigins`: the defaults, then each comma-separated entry, trimmed, skipping empty ones. */
  method BuildOrigins(extra: Option<string>) returns (list: seq<string>)
    ensures list == OriginList(extra)
  {
    list := DefaultOrigins;
    if extra.Some? && !Strings.IsBlank(extra.value) {
      var pieces := Strings.Split(extra.value, ',');
      list := AppendEntries(list, pieces);
    }
  }

  /** The loop of `buildOrigins`: appends each piece's trim to the list when it is not empty. */
  method AppendEntries(list0: seq<string>, pieces: seq<string>) returns (list: seq<string>)
    ensures list == list0 + Kept(pieces)
  {
    list := list0;
    for i := 0 to |pieces|
      invariant list == list0 + Kept(pieces[..i])
    {
      var trimmed := Strings.Trim(pieces[i]);
      ghost var before := Kept(pieces[..i]);
      KeptStep(pieces, i);
      if trimmed != "" {
        assert Kept(pieces[..i + 1]) == before + [trimmed];
        assert (list0 + before) + [trimmed] == list0 + (before + [trimmed]);
        list := list + [trimmed];
      } else {
        assert Kept(pieces[..i + 1]) == before;
      }
    }
    assert pieces[..|pieces|] == pieces;
  }

  /** A non-empty string with no removable character at either end: what `trim()` leaves. */
  predicate IsTrimmedEntry(o: string) {
    o != "" && !Strings.IsTrimmable(o[0]) && !Strings.IsTrimmable(o[|o| - 1])
  }

  /** A missing or blank variable leaves exactly the three defaults. */
  lemma BlankKeepsDefaults(extra: Option<string>)
    requires extra.None? || Strings.IsBlank(extra.value)
    ensures OriginList(extra) == DefaultOrigins
  {
  }

  /** Every added origin is a non-empty piece between commas, with no removable character at its ends. */
  lemma AddedOriginsAreTrimmed(extra: Option<string>)
    ensures var list := OriginList(extra);
      forall k :: 3 <= k < |list| ==> IsTrimmedEntry(list[k]) && ',' !in list[k]
  {
    var list := OriginList(extra);
    if extra.Some? && !Strings.IsBlank(extra.value) {
      var pieces := Strings.Split(extra.value, ',');
      var kept := Kept(pieces);
      assert list == DefaultOrigins + kept;
      forall k | 3 <= k < |list|
        ensures IsTrimmedEntry(list[k]) && ',' !in list[k]
      {
        assert list[k] == kept[k - 3];
        KeptFromPieces(pieces, k - 3);
        var j :| 0 <= j < |pieces| && kept[k - 3] == Strings.Trim(pieces[j]);
        TrimmedPiece(pieces[j]);
      }
    }
  }

  /** A comma-free piece whose trim is not empty gives a trimmed, comma-free entry. */
  lemma TrimmedPiece(piece: string)
    requires ',' !in piece && Strings.Trim(piece) != ""
    ensures IsTrimmedEntry(Strings.Trim(piece)) && ',' !in Strings.Trim(piece)
  {
    Strings.TrimIsTrimmed(piece);
    Strings.TrimKeepsAbsent(piece, ',');
  }

  lemma {:induction false} KeptNoop(origins: seq<string>)
    requires forall k :: 0 <= k < |origins| ==> IsTrimmedEntry(origins[k])
    ensures Kept(origins) == origins
    decreases |origins|
  {
    if |origins| > 0 {
      var pre, last := origins[..|origins| - 1], origins[|origins| - 1];
      assert Kept(pre) == pre by {
        KeptNoop(pre);
      }
      assert Strings.Trim(last) == last by {
        assert IsTrimmedEntry(last);
        Strings.TrimNoop(last);
      }
      assert origins == pre + [last];
    }
  }

  /** A joined list starts with its first piece, so it is not blank when that piece is not. */
  lemma JoinNotBlank(parts: seq<string>, sep: char)
    requires |parts| >= 1 && !Strings.IsBlank(parts[0])
    ensures !Strings.IsBlank(Strings.Join(parts, sep))
  {
    var joined := Strings.Join(parts, sep);
    assert Strings.StartsWith(joined, parts[0]);
    var i :| 0 <= i < |parts[0]| && !Strings.IsJavaWhitespace(parts[0][i]);
    assert joined[..|parts[0]|][i] == joined[i];
  }

  /**
   * Writing a list of trimmed, comma-free origins into the variable, comma-separated, adds exactly
   * those origins after the defaults, provided the value is not blank.
   */
  lemma OriginsRoundTrip(origins: seq<string>)
    requires |origins| >= 1
    requires forall k :: 0 <= k < |origins| ==> IsTrimmedEntry(origins[k]) && ',' !in origins[k]
    requires !Strings.IsBlank(origins[0])
    ensures OriginList(Some(Strings.Join(origins, ','))) == DefaultOrigins + origins
  {
    JoinedOriginsSplitBack(origins);
    KeptNoop(origins);
  }

  /** The joined value is not blank, and splitting it at commas gives the origins back. */
  lemma JoinedOriginsSplitBack(origins: seq<string>)
    requires |origins| >= 1
    requires forall k :: 0 <= k < |origins| ==> ',' !in origins[k]
    requires !Strings.IsBlank(origins[0])
    ensures !Strings.IsBlank(Strings.Join(origins, ','))
    ensures Strings.Split(Strings.Join(origins, ','), ',') == origins
  {
    JoinNotBlank(origins, ',');
    Strings.SplitJoin(origins, ',');
  }

  predicate IsOptions(requestMethod: string) {
    Strings.ToLower(requestMethod) == "options"
  }

  /** The headers the filter leaves on a response that had `before`. */
  function CorsHeaders(before: map<string, string>, allowed: seq<string>, origin: Option<string>): map<string, string> {
    var h := if origin.Some? && origin.value in allowed then before[AllowOrigin := origin.value] else before;
    h[AllowCredentials := "true"][AllowMethodsHeader := AllowedMethods][AllowHeadersHeader := AllowedHeaders][MaxAge := "3600"]
  }

  /**
   * `doFilterInternal`: sets the headers; answers an OPTIONS request (in any letter case) with 200
   * without calling the rest of the chain; otherwise calls the chain once. `chainCalls` counts the
   * calls of `filterChain.doFilter`.
   */
  method DoFilterInternal(allowed: seq<string>, origin: Option<string>, requestMethod: string, response: Http.Response)
    returns (chainCalls: nat)
    modifies response
    ensures response.headers == CorsHeaders(old(response.headers), allowed, origin)
    ensures response.body == old(response.body)
    ensures response.status == if IsOptions(requestMethod) then Http.StatusOk else old(response.status)
    ensures chainCalls == if IsOptions(requestMethod) then 0 else 1
  {
    if origin.Some? && origin.value in allowed {
      response.SetHeader(AllowOrigin, origin.value);
    }
    response.SetHeader(AllowCredentials, "true");
    response.SetHeader(AllowMethodsHeader, AllowedMethods);
    response.SetHeader(AllowHeadersHeader, AllowedHeaders);
    response.SetHeader(MaxAge, "3600");
    if IsOptions(requestMethod) {
      response.SetStatus(Http.StatusOk);
      return 0;
    }
    return 1;
  }

  /**
   * On a fresh response, the allow-origin header is present exactly when the request's origin is
   * in the list, and then it echoes that origin; the other four headers are always set.
   */
  lemma CorsHeadersSpec(allowed: seq<string>, origin: Option<string>)
    ensures var h := CorsHeaders(map[], allowed, origin);
      && (AllowOrigin in h <==> origin.Some? && origin.value in allowed)
      && (AllowOrigin in h ==> h[AllowOrigin] == origin.value)
      && AllowCredentials in h && h[AllowCredentials] == "true"
      && AllowMethodsHeader in h && h[AllowMethodsHeader] == AllowedMethods
      && AllowHeadersHeader in h && h[AllowHeadersHeader] == AllowedHeaders
      && MaxAge in h && h[MaxAge] == "3600"
  {
  }

  /** The preflight test ignores letter case. */
  lemma OptionsAnyCase()
    ensures IsOptions("OPTIONS") && IsOptions("options") && IsOptions("Options")
    ensures !IsOptions("GET") && !IsOptions("POST")
  {
  }
}
