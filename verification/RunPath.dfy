/** RUNPATH strings: splitting at colons, dropping absolute entries, joining what is left. */
module RunPath {

  type byte = x: int | 0 <= x < 256
  type Text = seq<byte>

  const COLON: byte := 58

  function Bytes(s: string): Text
    requires forall i :: 0 <= i < |s| ==> s[i] as int < 256
  {
    seq(|s|, i requires 0 <= i < |s| => s[i] as int)
  }

  const ORIGIN: Text := Bytes("$ORIGIN")
  const RELATIVE_PREFIXES: seq<Text> :=
    [ORIGIN, Bytes("${ORIGIN}"), Bytes("@loader_path"), Bytes("@executable_path"), Bytes("@rpath")]

  /** Does the entry say where the object is rather than where it was built? */
  predicate Wanted(entry: Text) {
    exists i :: 0 <= i < |RELATIVE_PREFIXES| && RELATIVE_PREFIXES[i] <= entry
  }

  /** `text.split(":")`. */
  function Pieces(text: Text): seq<Text> {
    if COLON !in text then [text]
    else var i := FirstColon(text); [text[..i]] + Pieces(text[i + 1..])
  }

  function FirstColon(text: Text): (i: nat)
    requires COLON in text
    ensures i < |text| && text[i] == COLON && COLON !in text[..i]
  {
    if text[0] == COLON then 0 else FirstColon(text[1..]) + 1
  }

  function Select(ps: seq<Text>, keep: Text -> bool): seq<Text> {
    if ps == [] then []
    else (if keep(ps[0]) then [ps[0]] else []) + Select(ps[1..], keep)
  }

  predicate NonEmpty(p: Text) { p != [] }

  /** The entries of a RUNPATH: an empty piece is no entry. */
  function Parts(text: Text): seq<Text> {
    Select(Pieces(text), NonEmpty)
  }

  function Kept(text: Text): seq<Text> {
    Select(Parts(text), Wanted)
  }

  function Join(ps: seq<Text>): Text {
    if ps == [] then [] else if |ps| == 1 then ps[0] else ps[0] + [COLON] + Join(ps[1..])
  }

  /** The string that replaces `text`. */
  function Cleaned(text: Text): Text {
    if |Kept(text)| == |Parts(text)| then text
    else if Join(Kept(text)) == [] && |ORIGIN| <= |text| then ORIGIN
    else Join(Kept(text))
  }

  // ---- lengths

  function Weight(ps: seq<Text>): nat {
    if ps == [] then 0 else |ps[0]| + 1 + Weight(ps[1..])
  }

  lemma {:induction false} PiecesWeight(text: Text)
    ensures Weight(Pieces(text)) == |text| + 1
    decreases |text|
  {
    if COLON in text {
      var i := FirstColon(text);
      PiecesWeight(text[i + 1..]);
      assert Pieces(text)[1..] == Pieces(text[i + 1..]);
    }
  }

  lemma {:induction false} SelectWeight(ps: seq<Text>, keep: Text -> bool)
    ensures Weight(Select(ps, keep)) <= Weight(ps) && |Select(ps, keep)| <= |ps|
    ensures |Select(ps, keep)| == |ps| ==> Select(ps, keep) == ps
    ensures (forall i :: 0 <= i < |ps| ==> ps[i] != []) && |Select(ps, keep)| < |ps| ==>
      Weight(Select(ps, keep)) + 2 <= Weight(ps)
  {
    if ps != [] {
      SelectWeight(ps[1..], keep);
      if keep(ps[0]) { assert Select(ps, keep)[1..] == Select(ps[1..], keep); }
      else { assert Select(ps, keep) == Select(ps[1..], keep); }
    }
  }

  lemma {:induction false} JoinLength(ps: seq<Text>)
    ensures |Join(ps)| == if ps == [] then 0 else Weight(ps) - 1
  {
    if |ps| > 1 { JoinLength(ps[1..]); }
  }

  lemma {:induction false} SelectMembers(ps: seq<Text>, keep: Text -> bool, p: Text)
    ensures p in Select(ps, keep) <==> p in ps && keep(p)
  {
    if ps != [] { SelectMembers(ps[1..], keep, p); }
  }

  lemma PartsNonEmpty(text: Text)
    ensures forall i :: 0 <= i < |Parts(text)| ==> Parts(text)[i] != []
  {
    forall i | 0 <= i < |Parts(text)| ensures Parts(text)[i] != [] {
      SelectMembers(Pieces(text), NonEmpty, Parts(text)[i]);
    }
  }

  /** The replacement always fits in the room of the old string. */
  lemma CleanedFits(text: Text)
    ensures |Cleaned(text)| <= |text|
  {
    PiecesWeight(text);
    SelectWeight(Pieces(text), NonEmpty);
    PartsNonEmpty(text);
    SelectWeight(Parts(text), Wanted);
    JoinLength(Kept(text));
  }

  // ---- contents

  ghost predicate Plain(ps: seq<Text>) {
    forall p :: p in ps ==> p != [] && COLON !in p
  }

  lemma {:induction false} PiecesHaveNoColon(text: Text, p: Text)
    requires p in Pieces(text)
    ensures COLON !in p && (forall b :: b in p ==> b in text)
    decreases |text|
  {
    if COLON in text {
      var i := FirstColon(text);
      if p != text[..i] { PiecesHaveNoColon(text[i + 1..], p); }
    }
  }

  lemma PartsPlain(text: Text)
    ensures Plain(Parts(text)) && Plain(Kept(text))
    ensures forall p :: p in Kept(text) ==> Wanted(p) && p in Pieces(text)
  {
    forall p ensures p in Parts(text) ==> p in Pieces(text) && p != [] && COLON !in p {
      SelectMembers(Pieces(text), NonEmpty, p);
      if p in Pieces(text) { PiecesHaveNoColon(text, p); }
    }
    forall p ensures p in Kept(text) ==> p in Parts(text) && Wanted(p) { SelectMembers(Parts(text), Wanted, p); }
  }

  /** Joining entries and splitting again gives the entries back, in order. */
  lemma {:induction false} SplitJoin(ps: seq<Text>)
    requires Plain(ps)
    ensures Parts(Join(ps)) == ps
  {
    if ps == [] {
      assert Pieces([]) == [[]];
    } else if |ps| == 1 {
      assert Pieces(ps[0]) == [ps[0]] == ps;
      AllKept(ps, NonEmpty);
    } else {
      var rest := Join(ps[1..]);
      var t := ps[0] + [COLON] + rest;
      assert t[|ps[0]|] == COLON;
      assert t[..|ps[0]|] == ps[0] && t[|ps[0]| + 1..] == rest;
      assert ps[0] in ps;
      FirstColonIs(t, |ps[0]|);
      assert forall p :: p in ps[1..] ==> p in ps;
      SplitJoin(ps[1..]);
      assert Pieces(t)[1..] == Pieces(rest);
    }
  }

  lemma {:induction false} FirstColonIs(text: Text, i: nat)
    requires i < |text| && text[i] == COLON && COLON !in text[..i]
    ensures FirstColon(text) == i
  {
    if i > 0 {
      assert text[0] == text[..i][0];
      assert text[1..][..i - 1] == text[..i][1..];
      FirstColonIs(text[1..], i - 1);
    }
  }

  lemma {:induction false} JoinBytes(ps: seq<Text>, b: byte)
    requires b in Join(ps)
    ensures b == COLON || exists p :: p in ps && b in p
  {
    if |ps| == 1 {
      assert ps[0] in ps;
    } else if |ps| > 1 {
      if b in ps[0] {
        assert ps[0] in ps;
      } else if b != COLON {
        JoinBytes(ps[1..], b);
        var p :| p in ps[1..] && b in p;
        assert p in ps;
      }
    }
  }

  lemma {:induction false} AllKept(ps: seq<Text>, keep: Text -> bool)
    requires forall p :: p in ps ==> keep(p)
    ensures Select(ps, keep) == ps
  {
    if ps != [] { AllKept(ps[1..], keep); }
  }

  lemma OriginIsRelative()
    ensures |ORIGIN| == 7 && Wanted(ORIGIN) && COLON !in ORIGIN && 0 !in ORIGIN && Plain([ORIGIN])
  {
    assert RELATIVE_PREFIXES[0] <= ORIGIN;
  }

  /** The relative entries stay, in order; if none was there, at most a bare `$ORIGIN` is put in.
      Nothing absolute is left. */
  lemma CleanedParts(text: Text)
    ensures Kept(text) != [] ==> Parts(Cleaned(text)) == Kept(text)
    ensures Kept(text) == [] && Parts(text) != [] ==>
      Parts(Cleaned(text)) == if |ORIGIN| <= |text| then [ORIGIN] else []
    ensures Kept(Cleaned(text)) == Parts(Cleaned(text))
  {
    PartsPlain(text);
    SelectWeight(Parts(text), Wanted);
    if |Kept(text)| != |Parts(text)| {
      OriginIsRelative();
      SplitJoin(Kept(text));
      SplitJoin([ORIGIN]);
      JoinLength(Kept(text));
      assert Kept(text) != [] ==> |Kept(text)[0]| > 0;
      AllKept(Parts(Cleaned(text)), Wanted);
    }
  }

  /** Cleaning never brings in a terminator. */
  lemma CleanedHasNoNul(text: Text)
    requires 0 !in text
    ensures 0 !in Cleaned(text)
  {
    PartsPlain(text);
    OriginIsRelative();
    if 0 in Join(Kept(text)) {
      JoinBytes(Kept(text), 0);
      var p :| p in Kept(text) && 0 in p;
      PiecesHaveNoColon(text, p);
    }
  }

  // ---- what the parts of a text are

  /** The bytes of `s` stand at `at` in the text. */
  predicate StandsAt(text: Text, at: nat, s: string) {
    at + |s| <= |text| && forall i :: 0 <= i < |s| ==> text[at + i] == s[i] as int
  }

  /** One of the prefixes that say where the object is. */
  predicate SaysWhere(text: Text, at: nat) {
    || StandsAt(text, at, "$ORIGIN") || StandsAt(text, at, "${ORIGIN}") || StandsAt(text, at, "@loader_path")
    || StandsAt(text, at, "@executable_path") || StandsAt(text, at, "@rpath")
  }

  /** The text from `a` to `b` is one piece: nothing but colons and the ends around it, none inside. */
  predicate PieceAt(text: Text, a: nat, b: nat) {
    && a <= b <= |text| && COLON !in text[a..b]
    && (a == 0 || text[a - 1] == COLON) && (b == |text| || text[b] == COLON)
  }

  /** Every piece is empty or says where the object is. */
  ghost predicate OnlyRelative(text: Text) {
    forall a: nat, b: nat :: PieceAt(text, a, b) && a < b ==> SaysWhere(text[a..b], 0)
  }

  lemma StandsIs(text: Text, s: string)
    requires forall i :: 0 <= i < |s| ==> s[i] as int < 256
    ensures StandsAt(text, 0, s) <==> Bytes(s) <= text
  {
    if StandsAt(text, 0, s) { assert text[..|s|] == Bytes(s); }
    if Bytes(s) <= text { forall i | 0 <= i < |s| ensures text[0 + i] == s[i] as int { assert text[i] == Bytes(s)[i]; } }
  }

  /** Which entries are kept. */
  lemma WantedIs(entry: Text)
    ensures Wanted(entry) <==> SaysWhere(entry, 0)
  {
    hide StandsAt, Bytes;
    StandsIs(entry, "$ORIGIN");
    StandsIs(entry, "${ORIGIN}");
    StandsIs(entry, "@loader_path");
    StandsIs(entry, "@executable_path");
    StandsIs(entry, "@rpath");
    assert RELATIVE_PREFIXES == [Bytes("$ORIGIN"), Bytes("${ORIGIN}"), Bytes("@loader_path"), Bytes("@executable_path"), Bytes("@rpath")];
    if Wanted(entry) {
      var i :| 0 <= i < |RELATIVE_PREFIXES| && RELATIVE_PREFIXES[i] <= entry;
      assert i == 0 || i == 1 || i == 2 || i == 3 || i == 4;
    }
    if SaysWhere(entry, 0) {
      assert RELATIVE_PREFIXES[0] <= entry || RELATIVE_PREFIXES[1] <= entry || RELATIVE_PREFIXES[2] <= entry
             || RELATIVE_PREFIXES[3] <= entry || RELATIVE_PREFIXES[4] <= entry;
    }
  }

  /** Splitting loses nothing: joined again, the pieces are the text. */
  lemma {:induction false} JoinPieces(text: Text)
    ensures Pieces(text) != [] && Join(Pieces(text)) == text
    decreases |text|
  {
    if COLON in text {
      var i := FirstColon(text);
      JoinPieces(text[i + 1..]);
      assert Pieces(text)[1..] == Pieces(text[i + 1..]);
      assert text == text[..i] + [COLON] + text[i + 1..];
    }
  }

  lemma {:induction false} PiecesUnfold(text: Text)
    ensures COLON !in text ==> Pieces(text) == [text]
    ensures COLON in text ==> Pieces(text) == [text[..FirstColon(text)]] + Pieces(text[FirstColon(text) + 1..])
  {
  }

  lemma OnlyPiece(text: Text, a: nat, b: nat)
    requires COLON !in text
    ensures PieceAt(text, a, b) <==> a == 0 && b == |text|
  {
    if a == 0 && b == |text| { assert text[a..b] == text; }
  }

  lemma FirstPiece(text: Text, i: nat)
    requires i < |text| && text[i] == COLON && COLON !in text[..i]
    ensures PieceAt(text, 0, i) && text[0..i] == text[..i]
  {
    assert text[0..i] == text[..i];
  }

  lemma {:induction false} PieceFound(text: Text, p: Text) returns (a: nat, b: nat)
    requires p in Pieces(text)
    ensures PieceAt(text, a, b) && a <= b <= |text| && text[a..b] == p
    decreases |text|
  {
    hide Pieces, PieceAt;
    PiecesUnfold(text);
    if COLON !in text {
      a, b := 0, |text|;
      OnlyPiece(text, a, b);
      assert text[0..|text|] == text;
    } else {
      var i := FirstColon(text);
      if p == text[..i] {
        a, b := 0, i;
        FirstPiece(text, i);
      } else {
        a, b := PieceFound(text[i + 1..], p);
        PieceShift(text, i, a, b);
        a, b := a + i + 1, b + i + 1;
      }
    }
  }

  lemma {:induction false} PieceListed(text: Text, a: nat, b: nat)
    requires PieceAt(text, a, b)
    ensures a <= b <= |text| && text[a..b] in Pieces(text)
    decreases |text|
  {
    PiecesInside(text);
    hide Pieces, PieceAt;
    PiecesUnfold(text);
    if COLON !in text {
      OnlyPiece(text, a, b);
      assert text[a..b] == text;
    } else {
      var i := FirstColon(text);
      PieceBefore(text, i, a, b);
      if a > i {
        PieceShift(text, i, a - i - 1, b - i - 1);
        PieceListed(text[i + 1..], a - i - 1, b - i - 1);
      } else {
        FirstPiece(text, i);
      }
    }
  }

  /** The pieces are the stretches between colons. */
  lemma PiecesAre(text: Text, p: Text)
    ensures p in Pieces(text) <==> exists a: nat, b: nat :: PieceAt(text, a, b) && text[a..b] == p
  {
    hide Pieces;
    if p in Pieces(text) { var a, b := PieceFound(text, p); }
    if a: nat, b: nat :| PieceAt(text, a, b) && text[a..b] == p { PieceListed(text, a, b); }
  }

  /** A piece is the first one, or comes after the first colon. */
  lemma PieceBefore(text: Text, i: nat, a: nat, b: nat)
    requires i < |text| && text[i] == COLON && COLON !in text[..i] && PieceAt(text, a, b)
    ensures (a == 0 && b == i) || a > i
  {
    forall j | 0 <= j < i ensures text[j] != COLON { assert text[..i][j] == text[j]; }
    forall j | a <= j < b ensures text[j] != COLON { assert text[a..b][j - a] == text[j]; }
  }

  /** After a colon, pieces are those of the rest. */
  lemma PieceShift(text: Text, i: nat, a: nat, b: nat)
    requires i < |text| && text[i] == COLON && a <= b <= |text| - i - 1
    ensures PieceAt(text, a + i + 1, b + i + 1) <==> PieceAt(text[i + 1..], a, b)
    ensures text[a + i + 1..b + i + 1] == text[i + 1..][a..b]
  {
    var rest := text[i + 1..];
    assert text[a + i + 1..b + i + 1] == rest[a..b];
    if a > 0 { assert rest[a - 1] == text[a + i]; }
  }

  /** Filtering a list filters its parts, in order. */
  lemma {:induction false} SelectConcat(a: seq<Text>, b: seq<Text>, keep: Text -> bool)
    ensures Select(a + b, keep) == Select(a, keep) + Select(b, keep)
  {
    if a == [] {
      assert a + b == b;
    } else {
      SelectConcat(a[1..], b, keep);
      assert (a + b)[1..] == a[1..] + b && (a + b)[0] == a[0];
    }
  }

  lemma {:induction false} AllSelected(ps: seq<Text>, keep: Text -> bool)
    ensures |Select(ps, keep)| == |ps| <==> forall p :: p in ps ==> keep(p)
  {
    SelectWeight(ps, keep);
    if |Select(ps, keep)| == |ps| {
      forall p | p in ps ensures keep(p) { SelectMembers(ps, keep, p); }
    }
    if forall p :: p in ps ==> keep(p) { AllKept(ps, keep); }
  }

  /** Nothing is dropped from a text exactly when all its pieces are relative or empty. */
  lemma RelativeIs(text: Text)
    ensures |Kept(text)| == |Parts(text)| <==> OnlyRelative(text)
  {
    hide PieceAt, Pieces, Wanted, SaysWhere;
    AllSelected(Parts(text), Wanted);
    forall p ensures p in Parts(text) <==> p != [] && exists a: nat, b: nat :: PieceAt(text, a, b) && b <= |text| && a <= b && text[a..b] == p {
      SelectMembers(Pieces(text), NonEmpty, p);
      PiecesAre(text, p);
      PiecesInside(text);
    }
    forall p ensures Wanted(p) <==> SaysWhere(p, 0) { WantedIs(p); }
    PiecesInside(text);
    if OnlyRelative(text) {
      forall p | p in Parts(text) ensures Wanted(p) {
        var a: nat, b: nat :| PieceAt(text, a, b) && b <= |text| && a <= b && text[a..b] == p;
      }
    }
    if forall p :: p in Parts(text) ==> Wanted(p) {
      forall a: nat, b: nat | PieceAt(text, a, b) && a < b ensures SaysWhere(text[a..b], 0) {
        assert text[a..b] != [];
        assert text[a..b] in Parts(text);
      }
    }
  }

  lemma PiecesInside(text: Text)
    ensures forall a: nat, b: nat :: PieceAt(text, a, b) ==> a <= b <= |text|
  {
  }

  /** If something is dropped and something kept, the new text is split into exactly what is kept. */
  lemma CleanedPieces(text: Text)
    requires |Kept(text)| != |Parts(text)| && Kept(text) != []
    ensures Pieces(Cleaned(text)) == Kept(text)
  {
    PartsPlain(text);
    JoinLength(Kept(text));
    assert Kept(text)[0] in Kept(text);
    PiecesOfJoin(Kept(text));
  }

  lemma {:induction false} PiecesOfJoin(ps: seq<Text>)
    requires Plain(ps) && ps != []
    ensures Pieces(Join(ps)) == ps
  {
    hide Pieces;
    assert ps[0] in ps;
    PiecesUnfold(Join(ps));
    if |ps| > 1 {
      var rest := Join(ps[1..]);
      var t := ps[0] + [COLON] + rest;
      assert t[|ps[0]|] == COLON && t[..|ps[0]|] == ps[0] && t[|ps[0]| + 1..] == rest;
      FirstColonIs(t, |ps[0]|);
      assert forall p :: p in ps[1..] ==> p in ps;
      PiecesOfJoin(ps[1..]);
    }
  }
}
