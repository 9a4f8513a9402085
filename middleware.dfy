/**
  The authentication middleware of api/middleware.go: it reads the
  `authorization` header, splits it into whitespace-separated fields, accepts
  only the bearer scheme (in any letter case) and hands the token to the token
  maker. The token maker is a parameter: a function from a token to a payload
  or a token error.
 */
module Middleware {
  import opened Wrappers
  import opened Http
  import opened Token

  const AuthorizationHeaderKey: string := "authorization"
  const AuthorizationTypeBearer: string := "bearer"
  const AuthorizationPayloadKey: string := "authorization_payload"

  // ---------------------------------------------------------------------------
  // strings.Fields and strings.ToLower

  /** unicode.IsSpace, the separator test of strings.Fields. */
  predicate IsSpace(c: char) {
    c == ' ' || c == '\t' || c == '\n' || c == '\r' || c == '\U{000B}' || c == '\U{000C}'
    || c == '\U{0085}' || c == '\U{00A0}' || c == '\U{1680}' || ('\U{2000}' <= c <= '\U{200A}')
    || c == '\U{2028}' || c == '\U{2029}' || c == '\U{202F}' || c == '\U{205F}' || c == '\U{3000}'
  }

  predicate NoSpace(s: string) {
    forall i :: 0 <= i < |s| ==> !IsSpace(s[i])
  }

  /** The characters of s that are not white space, in order. */
  function NonSpace(s: string): string {
    if s == [] then [] else (if IsSpace(s[0]) then [] else [s[0]]) + NonSpace(s[1..])
  }

  function Concat(ws: seq<string>): string {
    if ws == [] then [] else ws[0] + Concat(ws[1..])
  }

  /** The length of the leading run of non-space characters. */
  function WordLength(s: string): (n: nat)
    ensures n <= |s|
    ensures forall i :: 0 <= i < n ==> !IsSpace(s[i])
    ensures n < |s| ==> IsSpace(s[n])
  {
    if s == [] || IsSpace(s[0]) then 0 else 1 + WordLength(s[1..])
  }

  /**
    strings.Fields: the maximal runs of non-space characters, in order. Every
    field is non-empty and free of white space, and together the fields hold
    exactly the non-space characters of s.
   */
  function Fields(s: string): (r: seq<string>)
    ensures forall i :: 0 <= i < |r| ==> |r[i]| > 0 && NoSpace(r[i])
    ensures Concat(r) == NonSpace(s)
    decreases |s|
  {
    if s == [] then []
    else if IsSpace(s[0]) then
      assert NonSpace(s) == NonSpace(s[1..]);
      Fields(s[1..])
    else
      var n := WordLength(s);
      var rest := Fields(s[n..]);
      NonSpaceSplit(s, n);
      [s[..n]] + rest
  }

  /** A leading run of non-space characters is kept whole by NonSpace. */
  lemma {:induction false} NonSpaceSplit(s: string, n: nat)
    requires n <= |s|
    requires forall i :: 0 <= i < n ==> !IsSpace(s[i])
    ensures NonSpace(s) == s[..n] + NonSpace(s[n..])
  {
    if n > 0 {
      NonSpaceSplit(s[1..], n - 1);
      assert s[1..][..n - 1] == s[1..n];
      assert s[1..][n - 1..] == s[n..];
      assert s[..n] == [s[0]] + s[1..n];
    }
  }

  /** The words joined by single spaces. */
  function JoinSpaced(ws: seq<string>): string {
    if ws == [] then "" else if |ws| == 1 then ws[0] else ws[0] + " " + JoinSpaced(ws[1..])
  }

  /** Splitting words joined with single spaces gives the words back. */
  lemma {:induction false} FieldsJoinSpaced(ws: seq<string>)
    requires forall i :: 0 <= i < |ws| ==> |ws[i]| > 0 && NoSpace(ws[i])
    ensures Fields(JoinSpaced(ws)) == ws
  {
    if |ws| == 1 {
      FieldsOfWordThen(ws[0], "");
      assert ws[0] + "" == ws[0];
    } else if |ws| > 1 {
      var t := JoinSpaced(ws[1..]);
      assert JoinSpaced(ws) == ws[0] + ([' '] + t);
      FieldsOfWordThen(ws[0], [' '] + t);
      LeadingSpaceIgnored(' ', t);
      FieldsJoinSpaced(ws[1..]);
      assert [ws[0]] + ws[1..] == ws;
    }
  }

  /** A word followed by text that is empty or starts with a space is the first field. */
  lemma FieldsOfWordThen(w: string, t: string)
    requires |w| > 0 && NoSpace(w)
    requires t == [] || IsSpace(t[0])
    ensures Fields(w + t) == [w] + Fields(t)
  {
    var s := w + t;
    WordLengthOf(w, t);
    assert s[..|w|] == w && s[|w|..] == t;
  }

  lemma {:induction false} WordLengthOf(w: string, t: string)
    requires NoSpace(w)
    requires t == [] || IsSpace(t[0])
    ensures WordLength(w + t) == |w|
  {
    if w != [] {
      assert (w + t)[1..] == w[1..] + t;
      WordLengthOf(w[1..], t);
    }
  }

  /** Leading white space does not change the fields. */
  lemma LeadingSpaceIgnored(c: char, s: string)
    requires IsSpace(c)
    ensures Fields([c] + s) == Fields(s)
  {
    assert ([c] + s)[1..] == s;
  }

  /** A run of white space, possibly empty. */
  predicate AllSpace(g: string) {
    forall i :: 0 <= i < |g| ==> IsSpace(g[i])
  }

  /** gaps[0] + ws[0] + gaps[1] + ... + ws[n-1] + gaps[n]. */
  function Interleave(gaps: seq<string>, ws: seq<string>): string
    requires |gaps| == |ws| + 1
    decreases ws
  {
    if ws == [] then gaps[0] else gaps[0] + ws[0] + Interleave(gaps[1..], ws[1..])
  }

  /**
    `gaps` can sit around the words `ws`: one gap more than words, every gap
    white space, the ones between two words non-empty, the two ends possibly empty.
   */
  predicate Separates(gaps: seq<string>, ws: seq<string>) {
    && |gaps| == |ws| + 1
    && (forall i :: 0 <= i < |gaps| ==> AllSpace(gaps[i]))
    && (forall i :: 0 < i < |ws| ==> |gaps[i]| > 0)
  }

  /** White space in front of the text does not change the fields. */
  lemma {:induction false} SpacesIgnored(g: string, t: string)
    requires AllSpace(g)
    ensures Fields(g + t) == Fields(t)
  {
    if g == [] {
      assert g + t == t;
    } else {
      assert g + t == [g[0]] + (g[1..] + t);
      assert AllSpace(g[1..]) by {
        assert forall i :: 0 <= i < |g| - 1 ==> g[1..][i] == g[i + 1];
      }
      LeadingSpaceIgnored(g[0], g[1..] + t);
      SpacesIgnored(g[1..], t);
    }
  }

  /** Dropping the first word and the gap before it keeps a separation. */
  lemma SeparatesTail(gaps: seq<string>, ws: seq<string>)
    requires Separates(gaps, ws) && ws != []
    ensures Separates(gaps[1..], ws[1..])
  {
    assert forall i :: 0 <= i < |gaps| - 1 ==> gaps[1..][i] == gaps[i + 1];
  }

  /** What follows the first word of an interleaving is empty or starts with white space. */
  lemma AfterFirstWord(gaps: seq<string>, ws: seq<string>)
    requires Separates(gaps, ws) && ws != []
    ensures var t := Interleave(gaps[1..], ws[1..]); t == [] || IsSpace(t[0])
  {
    var t := Interleave(gaps[1..], ws[1..]);
    if |ws| == 1 {
      assert t == gaps[1];
      assert AllSpace(gaps[1]);
    } else {
      assert t == gaps[1] + ws[1] + Interleave(gaps[2..], ws[2..]) by {
        assert gaps[1..][0] == gaps[1] && ws[1..][0] == ws[1];
        assert gaps[1..][1..] == gaps[2..] && ws[1..][1..] == ws[2..];
      }
      assert |gaps[1]| > 0 && AllSpace(gaps[1]);
      assert t[0] == gaps[1][0];
    }
  }

  /**
    Any text made of non-empty, space-free words separated by white space
    splits into exactly those words.
   */
  lemma {:induction false} FieldsOfInterleave(gaps: seq<string>, ws: seq<string>)
    requires Separates(gaps, ws)
    requires forall i :: 0 <= i < |ws| ==> |ws[i]| > 0 && NoSpace(ws[i])
    ensures Fields(Interleave(gaps, ws)) == ws
  {
    if ws == [] {
      SpacesIgnored(gaps[0], "");
      assert gaps[0] + "" == gaps[0];
    } else {
      var t := Interleave(gaps[1..], ws[1..]);
      SeparatesTail(gaps, ws);
      assert forall i :: 0 <= i < |ws| - 1 ==> ws[1..][i] == ws[i + 1];
      FieldsOfInterleave(gaps[1..], ws[1..]);
      AfterFirstWord(gaps, ws);
      assert Interleave(gaps, ws) == gaps[0] + (ws[0] + t);
      SpacesIgnored(gaps[0], ws[0] + t);
      FieldsOfWordThen(ws[0], t);
      assert [ws[0]] + ws[1..] == ws;
    }
  }

  /** A white-space character in front of an interleaving joins its first gap. */
  lemma SpaceBeforeInterleave(c: char, g: seq<string>, ws: seq<string>)
    requires IsSpace(c) && Separates(g, ws)
    ensures var gaps := [[c] + g[0]] + g[1..];
      Separates(gaps, ws) && Interleave(gaps, ws) == [c] + Interleave(g, ws)
  {
    var gaps := [[c] + g[0]] + g[1..];
    assert gaps[1..] == g[1..];
    assert AllSpace(gaps[0]) by {
      assert forall i :: 1 <= i < |gaps[0]| ==> gaps[0][i] == g[0][i - 1];
    }
    assert forall i :: 1 <= i < |gaps| ==> gaps[i] == g[i];
    if ws != [] {
      assert Interleave(gaps, ws) == [c] + (g[0] + ws[0] + Interleave(g[1..], ws[1..]));
    }
  }

  /** A word in front of text that is empty or starts with white space becomes the first word, after an empty gap. */
  lemma WordBeforeInterleave(w: string, g: seq<string>, ws: seq<string>)
    requires |w| > 0 && NoSpace(w) && Separates(g, ws)
    requires var t := Interleave(g, ws); t == [] || IsSpace(t[0])
    requires forall i :: 0 <= i < |ws| ==> |ws[i]| > 0 && NoSpace(ws[i])
    ensures var gaps := [""] + g;
      Separates(gaps, [w] + ws) && Interleave(gaps, [w] + ws) == w + Interleave(g, ws)
  {
    var gaps := [""] + g;
    var ws' := [w] + ws;
    assert gaps[1..] == g && ws'[1..] == ws;
    assert ws != [] ==> |g[0]| > 0 by {
      if ws != [] {
        assert Interleave(g, ws) == g[0] + ws[0] + Interleave(g[1..], ws[1..]);
      }
    }
    assert forall i :: 1 <= i < |gaps| ==> gaps[i] == g[i - 1];
    assert Separates(gaps, ws');
    assert Interleave(gaps, ws') == "" + w + Interleave(g, ws);
  }

  /**
    Conversely, every text is its fields interleaved with white space: the
    fields are the maximal runs of non-space characters of s.
   */
  lemma {:induction false} FieldsSeparated(s: string)
    ensures exists gaps :: Separates(gaps, Fields(s)) && Interleave(gaps, Fields(s)) == s
    decreases |s|
  {
    var ws := Fields(s);
    if s == [] {
      assert Separates([""], ws) && Interleave([""], ws) == s;
    } else if IsSpace(s[0]) {
      assert ws == Fields(s[1..]);
      FieldsSeparated(s[1..]);
      var g :| Separates(g, ws) && Interleave(g, ws) == s[1..];
      SpaceBeforeInterleave(s[0], g, ws);
      assert [s[0]] + s[1..] == s;
      var gaps := [[s[0]] + g[0]] + g[1..];
      assert Separates(gaps, ws) && Interleave(gaps, ws) == s;
    } else {
      var n := WordLength(s);
      var rest := Fields(s[n..]);
      assert ws == [s[..n]] + rest;
      FieldsSeparated(s[n..]);
      var g :| Separates(g, rest) && Interleave(g, rest) == s[n..];
      assert n < |s| ==> s[n..][0] == s[n];
      WordBeforeInterleave(s[..n], g, rest);
      assert s[..n] + s[n..] == s;
      var gaps := [""] + g;
      assert Separates(gaps, ws) && Interleave(gaps, ws) == s;
    }
  }

  /** ASCII lower-casing, the part of strings.ToLower that can produce the letters of "bearer". */
  function LowerChar(c: char): char {
    if 'A' <= c <= 'Z' then (c as int + 32) as char else c
  }

  /** Each upper-case ASCII letter becomes its lower-case letter; every other character is kept. */
  function ToLower(s: string): (r: string)
    ensures |r| == |s|
    ensures forall i :: 0 <= i < |s| ==> !('A' <= r[i] <= 'Z')
    ensures forall i :: 0 <= i < |s| ==> r[i] == s[i] || ('A' <= s[i] <= 'Z' && r[i] as int == s[i] as int + 32)
  {
    seq(|s|, i requires 0 <= i < |s| => LowerChar(s[i]))
  }

  /** A word lower-cases to "bearer" exactly when it spells bearer, each letter in either case. */
  lemma ToLowerIsBearer(w: string)
    ensures ToLower(w) == AuthorizationTypeBearer <==>
      |w| == 6 && forall i :: 0 <= i < 6 ==> w[i] == "bearer"[i] || w[i] == "BEARER"[i]
  {
    if ToLower(w) == AuthorizationTypeBearer {
      forall i | 0 <= i < 6 ensures w[i] == "bearer"[i] || w[i] == "BEARER"[i] {
        assert ToLower(w)[i] == AuthorizationTypeBearer[i];
      }
    }
    if |w| == 6 && forall i :: 0 <= i < 6 ==> w[i] == "bearer"[i] || w[i] == "BEARER"[i] {
      forall i | 0 <= i < 6 ensures ToLower(w)[i] == AuthorizationTypeBearer[i] {
        assert w[i] == "bearer"[i] || w[i] == "BEARER"[i];
      }
    }
  }

  // ---------------------------------------------------------------------------
  // The middleware

  datatype AuthFailure =
    | MissingHeader
    | BadFormat
    | UnsupportedType(authType: string)
    | BadToken(err: TokenError)

  /** Either the request is aborted with a status, or the payload is stored under a key and the next handler runs. */
  datatype AuthOutcome = Abort(status: int, reason: AuthFailure) | Next(key: string, payload: Payload)

  /** The closure authMiddleware returns, applied to the header's value. */
  function Authenticate(header: string, verify: string -> Result<Payload, TokenError>): (o: AuthOutcome)
    ensures o.Abort? ==> o.status == StatusUnauthorized
    ensures o.Next? <==>
      && |Fields(header)| >= 2
      && ToLower(Fields(header)[0]) == AuthorizationTypeBearer
      && verify(Fields(header)[1]).Ok?
    ensures o.Next? ==> o.key == AuthorizationPayloadKey && o.payload == verify(Fields(header)[1]).value
    ensures header == [] ==> o == Abort(StatusUnauthorized, MissingHeader)
  {
    if |header| == 0 then Abort(StatusUnauthorized, MissingHeader)
    else
      var fields := Fields(header);
      if |fields| < 2 then Abort(StatusUnauthorized, BadFormat)
      else
        var authType := ToLower(fields[0]);
        if authType != AuthorizationTypeBearer then Abort(StatusUnauthorized, UnsupportedType(authType))
        else match verify(fields[1])
          case Err(e) => Abort(StatusUnauthorized, BadToken(e))
          case Ok(p) => Next(AuthorizationPayloadKey, p)
  }

  /** The scheme is matched in any letter case: "Bearer", "BEARER" and "bEaReR" all pass it to the token maker. */
  lemma SchemeCaseInsensitive(scheme: string, token: string, verify: string -> Result<Payload, TokenError>)
    requires |scheme| == |AuthorizationTypeBearer|
    requires forall i :: 0 <= i < |scheme| ==> LowerChar(scheme[i]) == AuthorizationTypeBearer[i]
    requires |token| > 0 && NoSpace(token)
    ensures match verify(token)
      case Ok(p) => Authenticate(scheme + " " + token, verify) == Next(AuthorizationPayloadKey, p)
      case Err(e) => Authenticate(scheme + " " + token, verify) == Abort(StatusUnauthorized, BadToken(e))
  {
    assert NoSpace(scheme) by {
      forall i | 0 <= i < |scheme| ensures !IsSpace(scheme[i]) {
        assert LowerChar(scheme[i]) == AuthorizationTypeBearer[i];
      }
    }
    FieldsJoinSpaced([scheme, token]);
    assert JoinSpaced([scheme, token]) == scheme + " " + token;
    assert ToLower(scheme) == AuthorizationTypeBearer;
  }

  /** Fields after the token are ignored: only the second field is verified. */
  lemma ExtraFieldsIgnored(token: string, extra: seq<string>, verify: string -> Result<Payload, TokenError>)
    requires |token| > 0 && NoSpace(token)
    requires forall i :: 0 <= i < |extra| ==> |extra[i]| > 0 && NoSpace(extra[i])
    ensures Authenticate(JoinSpaced(["bearer", token] + extra), verify) == Authenticate("bearer " + token, verify)
  {
    var ws := ["bearer", token] + extra;
    assert forall i :: 0 <= i < |ws| ==> |ws[i]| > 0 && NoSpace(ws[i]);
    FieldsJoinSpaced(ws);
    FieldsJoinSpaced(["bearer", token]);
    assert JoinSpaced(["bearer", token]) == "bearer " + token;
  }

  /** A header of white space alone is present but has no fields: it fails the format check, not the presence check. */
  lemma BlankHeaderIsBadFormat(verify: string -> Result<Payload, TokenError>)
    ensures Authenticate(" \t ", verify) == Abort(StatusUnauthorized, BadFormat)
  {
    assert Fields(" \t ") == [] by {
      assert " \t "[1..] == "\t ";
      assert "\t "[1..] == " ";
      assert " "[1..] == "";
    }
  }

  /** A token on its own, with no scheme, is rejected before the token maker is consulted. */
  lemma TokenWithoutScheme(token: string, verify: string -> Result<Payload, TokenError>)
    requires |token| > 0 && NoSpace(token)
    ensures Authenticate(token, verify) == Abort(StatusUnauthorized, BadFormat)
  {
    FieldsJoinSpaced([token]);
  }
}
