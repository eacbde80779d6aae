/** The SCRAM-SHA-256 server of proxy/clientAuth.go: its two parsers, the proof it checks and the
    signature it returns, against the client that RFC 5802 describes. */
module Scram {
  import opened Wrappers

  type bytes = seq<bv8>

  // ---- Attributes ----

  predicate CommaFree(s: string) {
    ',' !in s
  }

  predicate AllCommaFree(parts: seq<string>) {
    forall i :: 0 <= i < |parts| ==> CommaFree(parts[i])
  }

  // strings.Split(s, ",")
  function Split(s: string): (parts: seq<string>)
    ensures parts != [] && AllCommaFree(parts)
  {
    if s == "" then [""]
    else
      var rest := Split(s[1..]);
      if s[0] == ',' then [""] + rest else [[s[0]] + rest[0]] + rest[1..]
  }

  // strings.Join(parts, ",")
  function Join(parts: seq<string>): (s: string) {
    if parts == [] then ""
    else if |parts| == 1 then parts[0]
    else parts[0] + "," + Join(parts[1..])
  }

  lemma {:induction false} JoinSplit(s: string)
    ensures Join(Split(s)) == s
  {
    if s != "" {
      var rest := Split(s[1..]);
      JoinSplit(s[1..]);
      if s[0] == ',' {
        assert ([""] + rest)[1..] == rest;
        assert s == "," + s[1..];
      } else if |rest| > 1 {
        assert Split(s)[1..] == rest[1..];
        assert s == [s[0]] + s[1..];
      } else {
        assert Split(s) == [[s[0]] + rest[0]];
        assert s == [s[0]] + s[1..];
      }
    }
  }

  lemma {:induction false} SplitOne(s: string)
    requires CommaFree(s)
    ensures Split(s) == [s]
  {
    if s != "" {
      assert CommaFree(s[1..]);
      SplitOne(s[1..]);
      assert s == [s[0]] + s[1..];
    }
  }

  lemma {:induction false} SplitAtComma(a: string, s: string)
    requires CommaFree(a)
    ensures Split(a + "," + s) == [a] + Split(s)
  {
    var t := a + "," + s;
    if a == "" {
      assert t == "," + s && t[1..] == s;
    } else {
      assert CommaFree(a[1..]);
      assert t[1..] == a[1..] + "," + s;
      SplitAtComma(a[1..], s);
      assert a == [a[0]] + a[1..];
      assert ([a[1..]] + Split(s))[1..] == Split(s);
    }
  }

  lemma {:induction false} SplitJoin(parts: seq<string>)
    requires parts != [] && AllCommaFree(parts)
    ensures Split(Join(parts)) == parts
  {
    assert CommaFree(parts[0]);
    if |parts| == 1 {
      SplitOne(parts[0]);
    } else {
      assert forall i :: 0 <= i < |parts[1..]| ==> parts[1..][i] == parts[i + 1];
      SplitJoin(parts[1..]);
      SplitAtComma(parts[0], Join(parts[1..]));
      assert parts == [parts[0]] + parts[1..];
    }
  }

  lemma {:induction false} JoinSnoc(parts: seq<string>, last: string)
    requires parts != []
    ensures Join(parts + [last]) == Join(parts) + "," + last
  {
    if |parts| == 1 {
      assert (parts + [last])[1..] == [last];
    } else {
      JoinSnoc(parts[1..], last);
      assert (parts + [last])[1..] == parts[1..] + [last];
    }
  }

  // The value of the last part with this two-character prefix, and nothing if there is none.
  function LastValue(parts: seq<string>, key: string): (v: string)
    requires |key| == 2
  {
    if parts == [] then ""
    else
      var part := parts[|parts| - 1];
      if key <= part then part[2..] else LastValue(parts[..|parts| - 1], key)
  }

  // The parts without this prefix, in order.
  function Without(parts: seq<string>, key: string): (r: seq<string>) {
    if parts == [] then []
    else
      var part := parts[|parts| - 1];
      Without(parts[..|parts| - 1], key) + (if key <= part then [] else [part])
  }

  predicate NoneHas(parts: seq<string>, key: string) {
    forall i :: 0 <= i < |parts| ==> !(key <= parts[i])
  }

  lemma {:induction false} WithoutNone(parts: seq<string>, key: string)
    requires NoneHas(parts, key)
    ensures Without(parts, key) == parts
    ensures |key| == 2 ==> LastValue(parts, key) == ""
  {
    if parts != [] {
      WithoutNone(parts[..|parts| - 1], key);
    }
  }

  lemma {:induction false} WithoutHas(parts: seq<string>, key: string)
    ensures NoneHas(Without(parts, key), key)
    ensures |Without(parts, key)| <= |parts|
    ensures |Without(parts, key)| == |parts| ==> NoneHas(parts, key)
    ensures AllCommaFree(parts) ==> AllCommaFree(Without(parts, key))
  {
    if parts != [] {
      WithoutHas(parts[..|parts| - 1], key);
      assert forall i :: 0 <= i < |parts| - 1 ==> parts[..|parts| - 1][i] == parts[i];
    }
  }

  // ---- parseClientFirst ----

  datatype ScramError =
    | ExpectedGS2Header | NoClientNonce
    | MalformedClientFinal | NonceMismatch | NoProof
    | UndecodableProof | WrongPassword

  const GS2_HEADER := "n,,"

  function ClientFirst(msg: string): (r: Result<(string, string), ScramError>) {
    if !(GS2_HEADER <= msg) then Err(ExpectedGS2Header)
    else
      var nonce := LastValue(Split(msg[3..]), "r=");
      if nonce == "" then Err(NoClientNonce) else Ok((msg[3..], nonce))
  }

  method ParseClientFirst(msg: string) returns (r: Result<(string, string), ScramError>)
    ensures r == ClientFirst(msg)
  {
    if !(GS2_HEADER <= msg) {
      return Err(ExpectedGS2Header);
    }
    var bare := msg[3..];
    var parts := Split(bare);
    var clientNonce := "";
    for i := 0 to |parts|
      invariant clientNonce == LastValue(parts[..i], "r=")
    {
      assert parts[..i + 1][..i] == parts[..i];
      if "r=" <= parts[i] {
        clientNonce := parts[i][2..];
      }
    }
    assert parts[..|parts|] == parts;
    if clientNonce == "" {
      return Err(NoClientNonce);
    }
    r := Ok((bare, clientNonce));
  }

  // Printing and parsing a client-first-message: whatever attributes surround the nonce.
  lemma ClientFirstUndoesPrinting(before: seq<string>, nonce: string, after: seq<string>)
    requires AllCommaFree(before) && AllCommaFree(after) && CommaFree(nonce)
    requires NoneHas(after, "r=") && nonce != ""
    ensures var bare := Join(before + ["r=" + nonce] + after);
            ClientFirst(GS2_HEADER + bare) == Ok((bare, nonce))
  {
    var attrs := before + ["r=" + nonce] + after;
    SplitJoin(attrs);
    LastOf(before, "r=", nonce, after);
    assert (GS2_HEADER + Join(attrs))[3..] == Join(attrs);
  }

  lemma {:induction false} LastOf(before: seq<string>, key: string, value: string, after: seq<string>)
    requires |key| == 2 && NoneHas(after, key)
    ensures LastValue(before + [key + value] + after, key) == value
  {
    var parts := before + [key + value] + after;
    if after == [] {
      assert parts[|parts| - 1] == key + value;
    } else {
      assert parts[|parts| - 1] == after[|after| - 1];
      assert parts[..|parts| - 1] == before + [key + value] + after[..|after| - 1];
      LastOf(before, key, value, after[..|after| - 1]);
    }
  }

  // The last part with this prefix stands at i and has the value v.
  predicate StandsLast(parts: seq<string>, i: int, key: string, v: string) {
    0 <= i < |parts| && parts[i] == key + v && NoneHas(parts[i + 1..], key)
  }

  lemma {:induction false} LastValueStands(parts: seq<string>, key: string)
    requires |key| == 2
    ensures NoneHas(parts, key) ==> LastValue(parts, key) == ""
    ensures !NoneHas(parts, key) ==> exists i :: StandsLast(parts, i, key, LastValue(parts, key))
  {
    if parts != [] {
      var n := |parts| - 1;
      var before := parts[..n];
      if key <= parts[n] {
        assert parts[n] == key + parts[n][2..] && parts[n + 1..] == [];
        assert StandsLast(parts, n, key, LastValue(parts, key));
      } else {
        LastValueStands(before, key);
        if !NoneHas(before, key) {
          var i :| StandsLast(before, i, key, LastValue(before, key));
          assert parts[i + 1..] == before[i + 1..] + [parts[n]];
          assert StandsLast(parts, i, key, LastValue(parts, key));
        }
      }
    }
  }

  lemma LastValueAt(parts: seq<string>, i: int, key: string, v: string)
    requires |key| == 2 && StandsLast(parts, i, key, v)
    ensures LastValue(parts, key) == v && !NoneHas(parts, key)
  {
    LastOf(parts[..i], key, v, parts[i + 1..]);
    assert parts[..i] + [key + v] + parts[i + 1..] == parts;
    assert key <= parts[i];
  }

  lemma LastValueIff(parts: seq<string>, key: string, v: string)
    requires |key| == 2
    ensures LastValue(parts, key) == v
            <==> (exists i :: StandsLast(parts, i, key, v)) || (v == "" && NoneHas(parts, key))
  {
    LastValueStands(parts, key);
    if i :| StandsLast(parts, i, key, v) {
      LastValueAt(parts, i, key, v);
    }
  }

  lemma HeaderSplits(msg: string, bare: string)
    ensures "n,," <= msg && msg[3..] == bare <==> msg == "n,," + bare
  {
    if "n,," <= msg {
      assert msg == "n,," + msg[3..];
    }
  }

  // A client-first-message is accepted exactly if it has the header for no channel binding and the
  // last of its nonce attributes is not empty, and refused for the first of these that it lacks.
  lemma ClientFirstIff(msg: string, bare: string, nonce: string)
    ensures ClientFirst(msg) == Ok((bare, nonce))
            <==> msg == "n,," + bare && nonce != "" && exists i :: StandsLast(Split(bare), i, "r=", nonce)
    ensures ClientFirst(msg).Err? ==>
              ClientFirst(msg).error == if "n,," <= msg then NoClientNonce else ExpectedGS2Header
  {
    HeaderSplits(msg, bare);
    LastValueIff(Split(bare), "r=", nonce);
    assert GS2_HEADER == "n,,";
    if "n,," <= msg && msg[3..] == bare {
      assert ClientFirst(msg) == Ok((bare, nonce)) <==> nonce != "" && LastValue(Split(bare), "r=") == nonce;
    }
  }

  // ---- parseClientFinal ----

  // Some nonce attribute differs from the expected one.
  predicate Mismatch(parts: seq<string>, expectedNonce: string) {
    exists i :: 0 <= i < |parts| && "r=" <= parts[i] && parts[i][2..] != expectedNonce
  }

  function ClientFinal(msg: string, expectedNonce: string): (r: Result<(string, string), ScramError>) {
    var parts := Split(msg);
    if |parts| < 3 then Err(MalformedClientFinal)
    else if Mismatch(parts, expectedNonce) then Err(NonceMismatch)
    else
      var proof := LastValue(parts, "p=");
      if proof == "" then Err(NoProof) else Ok((Join(Without(parts, "p=")), proof))
  }

  lemma OneKey(part: string)
    ensures !("p=" <= part && "r=" <= part)
  {
    if "p=" <= part {
      assert part[0] == 'p' && "r="[0] == 'r';
    }
  }

  lemma Glue(prefix: string, proof: string)
    ensures prefix + ",p=" + proof == prefix + "," + ("p=" + proof)
    ensures "p=" <= "p=" + proof && ("p=" + proof)[2..] == proof
    ensures CommaFree(proof) ==> CommaFree("p=" + proof)
  {
    assert ",p=" == "," + "p=";
  }

  lemma MismatchSnoc(parts: seq<string>, i: nat, expectedNonce: string)
    requires i < |parts|
    ensures Mismatch(parts[..i + 1], expectedNonce)
            <==> Mismatch(parts[..i], expectedNonce) || ("r=" <= parts[i] && parts[i][2..] != expectedNonce)
  {
    var longer, shorter := parts[..i + 1], parts[..i];
    assert forall j :: 0 <= j < i ==> longer[j] == shorter[j];
    assert longer[i] == parts[i];
    if Mismatch(longer, expectedNonce) {
      var j :| 0 <= j < |longer| && "r=" <= longer[j] && longer[j][2..] != expectedNonce;
      assert j == i || shorter[j] == longer[j];
    }
    if Mismatch(shorter, expectedNonce) {
      var j :| 0 <= j < |shorter| && "r=" <= shorter[j] && shorter[j][2..] != expectedNonce;
      assert longer[j] == shorter[j];
    }
  }

  lemma MismatchMore(parts: seq<string>, i: nat, expectedNonce: string)
    requires i <= |parts| && Mismatch(parts[..i], expectedNonce)
    ensures Mismatch(parts, expectedNonce)
  {
    var j :| 0 <= j < i && "r=" <= parts[..i][j] && parts[..i][j][2..] != expectedNonce;
    assert parts[j] == parts[..i][j];
  }

  method ParseClientFinal(msg: string, expectedNonce: string) returns (r: Result<(string, string), ScramError>)
    ensures r == ClientFinal(msg, expectedNonce)
  {
    var parts := Split(msg);
    if |parts| < 3 {
      return Err(MalformedClientFinal);
    }
    var proof, withoutProof := "", [];
    for i := 0 to |parts|
      invariant proof == LastValue(parts[..i], "p=") && withoutProof == Without(parts[..i], "p=")
      invariant !Mismatch(parts[..i], expectedNonce)
    {
      var part := parts[i];
      assert parts[..i + 1][..i] == parts[..i];
      OneKey(part);
      MismatchSnoc(parts, i, expectedNonce);
      if "p=" <= part {
        proof := part[2..];
      } else {
        withoutProof := withoutProof + [part];
        if "r=" <= part {
          var nonce := part[2..];
          if nonce != expectedNonce {
            MismatchMore(parts, i + 1, expectedNonce);
            return Err(NonceMismatch);
          }
        }
      }
    }
    assert parts[..|parts|] == parts;
    if proof == "" {
      return Err(NoProof);
    }
    r := Ok((Join(withoutProof), proof));
  }

  // Exactly one attribute carries a proof, and it is the last.
  predicate ProofLast(parts: seq<string>) {
    parts != [] && "p=" <= parts[|parts| - 1] && NoneHas(parts[..|parts| - 1], "p=")
  }

  // Printing and parsing a client-final-message.
  lemma ClientFinalUndoesPrinting(attrs: seq<string>, proof: string, nonce: string)
    requires |attrs| >= 2 && AllCommaFree(attrs) && CommaFree(proof) && proof != ""
    requires NoneHas(attrs, "p=") && !Mismatch(attrs, nonce)
    ensures ClientFinal(Join(attrs) + ",p=" + proof, nonce) == Ok((Join(attrs), proof))
  {
    var last := "p=" + proof;
    var parts := attrs + [last];
    Glue(Join(attrs), proof);
    JoinSnoc(attrs, last);
    SplitJoin(parts);
    SnocFinal(attrs, last);
    WithoutNone(attrs, "p=");
    OneKey(last);
    MismatchSnoc(parts, |attrs|, nonce);
    assert parts[..|attrs| + 1] == parts && parts[..|attrs|] == attrs;
  }

  lemma SnocFinal(attrs: seq<string>, last: string)
    requires "p=" <= last
    ensures Without(attrs + [last], "p=") == Without(attrs, "p=") && LastValue(attrs + [last], "p=") == last[2..]
  {
    assert (attrs + [last])[..|attrs|] == attrs;
  }

  // The parser's two answers rebuild an accepted message exactly when its proof stands last and alone.
  lemma ClientFinalRebuildsIff(msg: string, nonce: string)
    requires ClientFinal(msg, nonce).Ok?
    ensures var (prefix, proof) := ClientFinal(msg, nonce).value;
            prefix + ",p=" + proof == msg <==> ProofLast(Split(msg))
  {
    var (prefix, proof) := ClientFinal(msg, nonce).value;
    var parts := Split(msg);
    JoinSplit(msg);
    Glue(prefix, proof);
    if ProofLast(parts) {
      RebuildsIfLast(parts);
    }
    if prefix + "," + ("p=" + proof) == msg {
      LastIfRebuilds(parts);
    }
  }

  lemma PrefixSplits(key: string, s: string)
    requires key <= s
    ensures s == key + s[|key|..]
  {
  }

  lemma ProofLastParts(parts: seq<string>)
    requires ProofLast(parts)
    ensures Without(parts, "p=") == parts[..|parts| - 1]
    ensures "p=" + LastValue(parts, "p=") == parts[|parts| - 1]
  {
    PrefixSplits("p=", parts[|parts| - 1]);
    WithoutNone(parts[..|parts| - 1], "p=");
  }

  lemma JoinInit(parts: seq<string>)
    requires |parts| >= 2
    ensures Join(parts[..|parts| - 1]) + "," + parts[|parts| - 1] == Join(parts)
  {
    var init, last := parts[..|parts| - 1], parts[|parts| - 1];
    JoinSnoc(init, last);
    assert init + [last] == parts;
  }

  lemma RebuildsIfLast(parts: seq<string>)
    requires ProofLast(parts) && |parts| >= 2
    ensures Join(Without(parts, "p=")) + "," + ("p=" + LastValue(parts, "p=")) == Join(parts)
  {
    ProofLastParts(parts);
    JoinInit(parts);
  }

  lemma LastIfRebuilds(parts: seq<string>)
    requires |parts| >= 3 && AllCommaFree(parts)
    requires Split(Join(Without(parts, "p=")) + "," + ("p=" + LastValue(parts, "p="))) == parts
    ensures ProofLast(parts)
  {
    var kept, last := Without(parts, "p="), "p=" + LastValue(parts, "p=");
    WithoutHas(parts, "p=");
    LastIsCommaFree(parts, "p=");
    Glue("", LastValue(parts, "p="));
    if kept == [] {
      SplitAtComma("", last);
      SplitOne(last);
      assert false;
    } else {
      JoinSnoc(kept, last);
      SplitJoin(kept + [last]);
      assert parts[..|parts| - 1] == kept;
    }
  }

  lemma {:induction false} LastIsCommaFree(parts: seq<string>, key: string)
    requires |key| == 2 && AllCommaFree(parts)
    ensures CommaFree(LastValue(parts, key))
  {
    if parts != [] && !(key <= parts[|parts| - 1]) {
      LastIsCommaFree(parts[..|parts| - 1], key);
    }
  }

  lemma MismatchIff(parts: seq<string>, nonce: string)
    ensures Mismatch(parts, nonce) <==> exists i :: 0 <= i < |parts| && "r=" <= parts[i] && parts[i] != "r=" + nonce
  {
    forall i | 0 <= i < |parts| && "r=" <= parts[i]
      ensures parts[i][2..] == nonce <==> parts[i] == "r=" + nonce
    {
      assert parts[i] == "r=" + parts[i][2..];
    }
  }

  // A client-final-message is refused for the first of these that is so: it has fewer than three
  // attributes, a nonce other than the expected one, or no proof or an empty one as its last.
  lemma ClientFinalRefusedIff(msg: string, nonce: string)
    ensures var parts, r := Split(msg), ClientFinal(msg, nonce);
            var foreign := exists i :: 0 <= i < |parts| && "r=" <= parts[i] && parts[i] != "r=" + nonce;
            && (r == Err(MalformedClientFinal) <==> |parts| < 3)
            && (r == Err(NonceMismatch) <==> |parts| >= 3 && foreign)
            && (r == Err(NoProof)
                <==> |parts| >= 3 && !foreign
                     && (NoneHas(parts, "p=") || exists i :: StandsLast(parts, i, "p=", "")))
            && (r.Err? ==> r.error in {MalformedClientFinal, NonceMismatch, NoProof})
  {
    MismatchIff(Split(msg), nonce);
    LastValueIff(Split(msg), "p=", "");
  }

  lemma {:induction false} WithoutSplits(a: seq<string>, b: seq<string>, key: string)
    ensures Without(a + b, key) == Without(a, key) + Without(b, key)
    decreases |b|
  {
    if b == [] {
      assert a + b == a;
    } else {
      var n := |b| - 1;
      assert (a + b)[..|a + b| - 1] == a + b[..n];
      WithoutSplits(a, b[..n], key);
    }
  }

  lemma WithoutOne(part: string, key: string)
    ensures Without([part], key) == if key <= part then [] else [part]
  {
    assert [part][..0] == [];
  }

  // Wherever the proof stands, the parser takes it out and joins the other attributes in their order.
  lemma ProofAnywhere(a: seq<string>, proof: string, b: seq<string>, nonce: string)
    requires |a| + |b| >= 2 && AllCommaFree(a) && AllCommaFree(b) && CommaFree(proof) && proof != ""
    requires NoneHas(a, "p=") && NoneHas(b, "p=") && !Mismatch(a + b, nonce)
    ensures ClientFinal(Join(a + ["p=" + proof] + b), nonce) == Ok((Join(a + b), proof))
  {
    var last := "p=" + proof;
    var parts := a + [last] + b;
    SplitJoin(parts);
    LastOf(a, "p=", proof, b);
    WithoutSplits(a + [last], b, "p=");
    WithoutSplits(a, [last], "p=");
    WithoutOne(last, "p=");
    WithoutNone(a, "p=");
    WithoutNone(b, "p=");
    MismatchInserted(a, last, b, nonce);
    assert a + [] == a;
  }

  lemma MismatchInserted(a: seq<string>, proof: string, b: seq<string>, nonce: string)
    requires "p=" <= proof
    ensures Mismatch(a + [proof] + b, nonce) <==> Mismatch(a + b, nonce)
  {
    OneKey(proof);
    var parts, rest := a + [proof] + b, a + b;
    if Mismatch(parts, nonce) {
      var i :| 0 <= i < |parts| && "r=" <= parts[i] && parts[i][2..] != nonce;
      assert parts[i] == rest[if i < |a| then i else i - 1];
    }
    if Mismatch(rest, nonce) {
      var i :| 0 <= i < |rest| && "r=" <= rest[i] && rest[i][2..] != nonce;
      assert rest[i] == parts[if i < |a| then i else i + 1];
    }
  }

  lemma EarlierPartIgnored(a: seq<string>, part: string, b: seq<string>, key: string)
    requires |key| == 2 && key <= part && !NoneHas(b, key)
    ensures Without(a + [part] + b, key) == Without(a + b, key)
    ensures LastValue(a + [part] + b, key) == LastValue(a + b, key)
  {
    WithoutSplits(a + [part], b, key);
    WithoutSplits(a, [part], key);
    WithoutSplits(a, b, key);
    WithoutOne(part, key);
    assert Without(a, key) + [] == Without(a, key);
    LastValueStands(b, key);
    var i :| StandsLast(b, i, key, LastValue(b, key));
    LastInFront(a + [part], b, i, key);
    LastInFront(a, b, i, key);
  }

  lemma LastInFront(a: seq<string>, b: seq<string>, i: int, key: string)
    requires |key| == 2 && StandsLast(b, i, key, LastValue(b, key))
    ensures LastValue(a + b, key) == LastValue(b, key)
  {
    assert (a + b)[|a| + i + 1..] == b[i + 1..];
    LastValueAt(a + b, |a| + i, key, LastValue(b, key));
  }

  // Of several proofs the last counts; an earlier one might as well not be there.
  lemma EarlierProofIgnored(a: seq<string>, stale: string, b: seq<string>, nonce: string)
    requires |a| + |b| >= 3 && AllCommaFree(a) && AllCommaFree(b) && CommaFree(stale) && !NoneHas(b, "p=")
    ensures ClientFinal(Join(a + ["p=" + stale] + b), nonce) == ClientFinal(Join(a + b), nonce)
  {
    var earlier := "p=" + stale;
    SplitJoin(a + [earlier] + b);
    SplitJoin(a + b);
    EarlierPartIgnored(a, earlier, b, "p=");
    MismatchInserted(a, earlier, b, nonce);
  }

  // The comment above parseClientFinal says that it verifies the nonce. An accepted message carries
  // the expected nonce exactly when it carries one at all; without one it is accepted all the same.
  lemma NonceVerifiedIffPresent(msg: string, nonce: string)
    requires ClientFinal(msg, nonce).Ok?
    ensures "r=" + nonce in Split(msg) <==> !NoneHas(Split(msg), "r=")
  {
    var parts := Split(msg);
    if !NoneHas(parts, "r=") {
      var i :| 0 <= i < |parts| && "r=" <= parts[i];
      assert parts[i][2..] == nonce;
      assert parts[i] == "r=" + parts[i][2..];
    }
  }

  lemma NonceMayBeAbsent(attrs: seq<string>, proof: string, nonce: string)
    requires |attrs| >= 2 && AllCommaFree(attrs) && CommaFree(proof) && proof != ""
    requires NoneHas(attrs, "p=") && NoneHas(attrs, "r=")
    ensures ClientFinal(Join(attrs) + ",p=" + proof, nonce) == Ok((Join(attrs), proof))
  {
    ClientFinalUndoesPrinting(attrs, proof, nonce);
  }

  // One such message.
  lemma NonceAbsentExample(nonce: string)
    ensures ClientFinal(Join(["c=biws", "x="]) + ",p=" + "AA", nonce).Ok?
  {
    var attrs := ["c=biws", "x="];
    assert attrs[0][0] == 'c' && attrs[1][0] == 'x' && "p="[0] == 'p' && "r="[0] == 'r';
    NonceMayBeAbsent(attrs, "AA", nonce);
  }

  // ---- The exchange ----

  // The functions of other packages: what matters here is their sizes and that decoding undoes
  // encoding. pbkdf2 takes the password, the salt and the iteration count as printed.
  datatype Crypto = Crypto(
    hmac: (bytes, bytes) -> bytes,
    hash: bytes -> bytes,
    pbkdf2: (bytes, bytes, string) -> bytes,
    encode: bytes -> string,
    decode: string -> Option<bytes>,
    raw: string -> bytes)
  {
    ghost predicate Sound() {
      && (forall k, d :: |hmac(k, d)| == 32)
      && (forall b :: decode(encode(b)) == Some(b) && CommaFree(encode(b)))
      && (forall b :: b != [] ==> encode(b) != "")
    }
  }

  const ITERATIONS := "4096"
  const CLIENT_KEY := "Client Key"
  const SERVER_KEY := "Server Key"

  function Xor(a: bytes, b: bytes): (r: bytes)
    requires |a| == |b|
    ensures |r| == |a| && forall i :: 0 <= i < |a| ==> r[i] == a[i] ^ b[i]
  {
    seq(|a|, i requires 0 <= i < |a| => a[i] ^ b[i])
  }

  lemma XorUndoesXor(a: bytes, b: bytes)
    requires |a| == |b|
    ensures Xor(Xor(a, b), b) == a
  {
    forall i | 0 <= i < |a|
      ensures Xor(Xor(a, b), b)[i] == a[i]
    {
      assert (a[i] ^ b[i]) ^ b[i] == a[i];
    }
  }

  // The proof that RFC 5802, section 3, defines, from the salted password and the AuthMessage.
  function ProofOf(c: Crypto, salted: bytes, authMessage: string): (proof: Option<bytes>) {
    var clientKey := c.hmac(salted, c.raw(CLIENT_KEY));
    var signature := c.hmac(c.hash(clientKey), c.raw(authMessage));
    if |clientKey| == |signature| then Some(Xor(clientKey, signature)) else None
  }

  function SignatureOf(c: Crypto, salted: bytes, authMessage: string): (v: string) {
    "v=" + c.encode(c.hmac(c.hmac(salted, c.raw(SERVER_KEY)), c.raw(authMessage)))
  }

  // What the server keeps between its two messages.
  datatype Session = Session(clientFirstBare: string, serverNonce: string, serverFirst: string, salt: bytes)

  // Round 1 and the server's reply; suffix and salt are the random bytes it draws.
  method ServerFirst(c: Crypto, clientFirst: string, suffix: bytes, salt: bytes)
    returns (r: Result<Session, ScramError>)
    ensures r == Greeting(c, clientFirst, suffix, salt)
  {
    var parsed := ParseClientFirst(clientFirst);
    if parsed.Err? {
      return Err(parsed.error);
    }
    var serverNonce := parsed.value.1 + c.encode(suffix);
    var serverFirst := "r=" + serverNonce + ",s=" + c.encode(salt) + ",i=" + ITERATIONS;
    r := Ok(Session(parsed.value.0, serverNonce, serverFirst, salt));
  }

  function Greeting(c: Crypto, clientFirst: string, suffix: bytes, salt: bytes): (r: Result<Session, ScramError>) {
    match ClientFirst(clientFirst)
    case Err(e) => Err(e)
    case Ok((bare, nonce)) =>
      var full := nonce + c.encode(suffix);
      Ok(Session(bare, full, "r=" + full + ",s=" + c.encode(salt) + ",i=" + ITERATIONS, salt))
  }

  // The loop that fills expectedProof.
  method XorLoop(clientKey: bytes, clientSignature: bytes) returns (proof: bytes)
    requires |clientKey| == |clientSignature|
    ensures proof == Xor(clientKey, clientSignature)
  {
    var expectedProof := new bv8[|clientKey|];
    for i := 0 to |clientKey|
      invariant forall j :: 0 <= j < i ==> expectedProof[j] == clientKey[j] ^ clientSignature[j]
    {
      expectedProof[i] := clientKey[i] ^ clientSignature[i];
    }
    proof := expectedProof[..];
  }

  function Verdict(c: Crypto, password: string, session: Session, answer: string): (r: Result<string, ScramError>) {
    match ClientFinal(answer, session.serverNonce)
    case Err(e) => Err(e)
    case Ok((withoutProof, proof)) =>
      var salted := c.pbkdf2(c.raw(password), session.salt, ITERATIONS);
      var authMessage := session.clientFirstBare + "," + session.serverFirst + "," + withoutProof;
      if c.decode(proof) == None then Err(UndecodableProof)
      else if c.decode(proof) != ProofOf(c, salted, authMessage) then Err(WrongPassword)
      else Ok(SignatureOf(c, salted, authMessage))
  }

  // Rounds 2 and 3 for the client's answer: the server's final message, or why it refuses.
  method ServerFinal(c: Crypto, password: string, session: Session, answer: string)
    returns (r: Result<string, ScramError>)
    requires c.Sound()
    ensures r == Verdict(c, password, session, answer)
  {
    var parsed := ParseClientFinal(answer, session.serverNonce);
    if parsed.Err? {
      return Err(parsed.error);
    }
    var saltedPassword := c.pbkdf2(c.raw(password), session.salt, ITERATIONS);
    var clientKey := c.hmac(saltedPassword, c.raw(CLIENT_KEY));
    var storedKey := c.hash(clientKey);
    var authMessage := session.clientFirstBare + "," + session.serverFirst + "," + parsed.value.0;
    var clientSignature := c.hmac(storedKey, c.raw(authMessage));
    var expectedProof := XorLoop(clientKey, clientSignature);
    var clientProof := c.decode(parsed.value.1);
    if clientProof == None {
      return Err(UndecodableProof);
    }
    if clientProof.value != expectedProof {
      return Err(WrongPassword);
    }
    var serverKey := c.hmac(saltedPassword, c.raw(SERVER_KEY));
    var serverSignature := c.hmac(serverKey, c.raw(authMessage));
    r := Ok("v=" + c.encode(serverSignature));
  }

  // The check that RFC 5802, section 3, asks of the server: the key recovered from the proof hashes
  // to the stored key.
  ghost predicate RfcAccepts(c: Crypto, salted: bytes, authMessage: string, proof: bytes) {
    var storedKey := c.hash(c.hmac(salted, c.raw("Client Key")));
    var signature := c.hmac(storedKey, c.raw(authMessage));
    |proof| == |signature| && c.hash(Xor(proof, signature)) == storedKey
  }

  // The server compares proofs instead of keys. Whatever it accepts, the RFC's check accepts for the
  // same transcript.
  lemma AcceptedProofsMeetRfc(c: Crypto, password: string, session: Session, answer: string)
    requires c.Sound() && Verdict(c, password, session, answer).Ok?
    ensures ClientFinal(answer, session.serverNonce).Ok?
    ensures var (withoutProof, proof) := ClientFinal(answer, session.serverNonce).value;
            var authMessage := session.clientFirstBare + "," + session.serverFirst + "," + withoutProof;
            && c.decode(proof).Some?
            && RfcAccepts(c, c.pbkdf2(c.raw(password), session.salt, "4096"), authMessage, c.decode(proof).value)
  {
    var (withoutProof, proof) := ClientFinal(answer, session.serverNonce).value;
    var authMessage := session.clientFirstBare + "," + session.serverFirst + "," + withoutProof;
    var salted := c.pbkdf2(c.raw(password), session.salt, ITERATIONS);
    var clientKey := c.hmac(salted, c.raw(CLIENT_KEY));
    XorUndoesXor(clientKey, c.hmac(c.hash(clientKey), c.raw(authMessage)));
  }

  // ---- The client of RFC 5802 ----

  // It reads nonce, salt and iteration count off the server's first message, and signs the AuthMessage
  // made of its own two messages and the server's. extra are the extensions of its final message.
  datatype ClientView = ClientView(withoutProof: string, salted: bytes, authMessage: string)

  function ClientReads(c: Crypto, password: string, bare: string, serverFirst: string,
                       binding: string, extra: seq<string>)
    : (v: ClientView)
  {
    var attrs := Split(serverFirst);
    var salt := match c.decode(LastValue(attrs, "s=")) case Some(b) => b case None => [];
    var withoutProof := Join([binding, "r=" + LastValue(attrs, "r=")] + extra);
    ClientView(withoutProof,
               c.pbkdf2(c.raw(password), salt, LastValue(attrs, "i=")),
               bare + "," + serverFirst + "," + withoutProof)
  }

  // The proof that section 3 of RFC 5802 asks of it: ClientKey XOR ClientSignature.
  function RfcProof(c: Crypto, salted: bytes, authMessage: string): (proof: bytes) {
    var clientKey := c.hmac(salted, c.raw("Client Key"));
    var signature := c.hmac(c.hash(clientKey), c.raw(authMessage));
    if |clientKey| != |signature| then []
    else seq(|clientKey|, i requires 0 <= i < |clientKey| => clientKey[i] ^ signature[i])
  }

  // The client's final message.
  function ClientAnswer(c: Crypto, v: ClientView): (answer: string) {
    v.withoutProof + ",p=" + c.encode(RfcProof(c, v.salted, v.authMessage))
  }

  // What it demands of the server's final message: the ServerSignature of section 3.
  ghost predicate ClientVerifies(c: Crypto, v: ClientView, msg: string) {
    "v=" <= msg && c.decode(msg[2..]) == Some(c.hmac(c.hmac(v.salted, c.raw("Server Key")), c.raw(v.authMessage)))
  }

  // And of the server's first: its own nonce, continued.
  predicate NonceContinued(serverFirst: string, nonce: string) {
    nonce < LastValue(Split(serverFirst), "r=")
  }

  lemma ServerFirstSplits(r: string, t: string, i: string)
    requires CommaFree(r) && CommaFree(t) && CommaFree(i)
    ensures Split(r + "," + (t + "," + i)) == [r, t, i]
  {
    SplitOne(i);
    SplitAtComma(t, i);
    SplitAtComma(r, t + "," + i);
  }

  lemma Differs(key: string, part: string)
    requires key != "" && part != "" && key[0] != part[0]
    ensures !(key <= part)
  {
  }

  lemma ServerFirstValues(full: string, salt64: string, iterations: string)
    ensures var attrs := ["r=" + full, "s=" + salt64, "i=" + iterations];
            LastValue(attrs, "r=") == full && LastValue(attrs, "s=") == salt64 && LastValue(attrs, "i=") == iterations
  {
    var r, t, i := "r=" + full, "s=" + salt64, "i=" + iterations;
    Differs("r=", t);
    Differs("r=", i);
    Differs("s=", i);
    LastOf([], "r=", full, [t, i]);
    LastOf([r], "s=", salt64, [i]);
    LastOf([r, t], "i=", iterations, []);
    assert [] + [r] + [t, i] == [r, t, i] && [r] + [t] + [i] == [r, t, i] && [r, t] + [i] + [] == [r, t, i];
  }

  lemma ServerFirstShape(full: string, salt64: string)
    ensures "r=" + full + ",s=" + salt64 + ",i=" + ITERATIONS
            == ("r=" + full) + "," + (("s=" + salt64) + "," + ("i=" + ITERATIONS))
  {
    assert ",s=" == "," + "s=" && ",i=" == "," + "i=";
  }

  lemma ServerFirstParses(full: string, salt64: string)
    requires CommaFree(full) && CommaFree(salt64)
    ensures var attrs := Split("r=" + full + ",s=" + salt64 + ",i=" + ITERATIONS);
            LastValue(attrs, "r=") == full && LastValue(attrs, "s=") == salt64 && LastValue(attrs, "i=") == ITERATIONS
  {
    ServerFirstShape(full, salt64);
    ServerFirstSplits("r=" + full, "s=" + salt64, "i=" + ITERATIONS);
    ServerFirstValues(full, salt64, ITERATIONS);
  }

  // The two sides of an honest exchange agree on everything that is signed.
  lemma ViewsAgree(c: Crypto, password: string, session: Session, suffix: bytes, nonce: string,
                   binding: string, extra: seq<string>)
    requires c.Sound() && CommaFree(nonce)
    requires session.serverNonce == nonce + c.encode(suffix)
    requires session.serverFirst == "r=" + session.serverNonce + ",s=" + c.encode(session.salt) + ",i=" + ITERATIONS
    ensures var v := ClientReads(c, password, session.clientFirstBare, session.serverFirst, binding, extra);
            && v.withoutProof == Join([binding, "r=" + session.serverNonce] + extra)
            && v.salted == c.pbkdf2(c.raw(password), session.salt, "4096")
            && v.authMessage == session.clientFirstBare + "," + session.serverFirst + "," + v.withoutProof
  {
    assert CommaFree(c.encode(suffix)) && CommaFree(c.encode(session.salt));
    ServerFirstParses(session.serverNonce, c.encode(session.salt));
  }

  // The proof that the server expects is the RFC's.
  lemma ProofIsRfc(c: Crypto, salted: bytes, authMessage: string)
    requires c.Sound()
    ensures ProofOf(c, salted, authMessage) == Some(RfcProof(c, salted, authMessage))
    ensures |RfcProof(c, salted, authMessage)| == 32
  {
    var clientKey := c.hmac(salted, c.raw("Client Key"));
    var signature := c.hmac(c.hash(clientKey), c.raw(authMessage));
    assert |clientKey| == 32 && |signature| == 32;
    assert CLIENT_KEY == "Client Key";
    assert Xor(clientKey, signature) == RfcProof(c, salted, authMessage);
  }

  lemma AnswerParses(c: Crypto, v: ClientView, fullNonce: string, binding: string, extra: seq<string>)
    requires c.Sound() && CommaFree(fullNonce)
    requires CommaFree(binding) && !("p=" <= binding) && !("r=" <= binding)
    requires AllCommaFree(extra) && NoneHas(extra, "p=") && NoneHas(extra, "r=")
    requires v.withoutProof == Join([binding, "r=" + fullNonce] + extra)
    ensures ClientFinal(ClientAnswer(c, v), fullNonce)
            == Ok((v.withoutProof, c.encode(RfcProof(c, v.salted, v.authMessage))))
  {
    var proof := RfcProof(c, v.salted, v.authMessage);
    ProofIsRfc(c, v.salted, v.authMessage);
    var attrs := [binding, "r=" + fullNonce] + extra;
    Differs("p=", "r=" + fullNonce);
    assert ("r=" + fullNonce)[2..] == fullNonce;
    assert forall i :: 2 <= i < |attrs| ==> attrs[i] == extra[i - 2];
    assert c.decode(c.encode(proof)) == Some(proof) && CommaFree(c.encode(proof));
    ClientFinalUndoesPrinting(attrs, c.encode(proof), fullNonce);
  }

  // The server's first message, spelled out, and what it keeps for the second round.
  lemma GreetingIs(c: Crypto, clientFirst: string, suffix: bytes, salt: bytes)
    ensures ClientFirst(clientFirst).Err? ==>
              Greeting(c, clientFirst, suffix, salt) == Err(ClientFirst(clientFirst).error)
    ensures ClientFirst(clientFirst).Ok? ==>
              var (bare, nonce) := ClientFirst(clientFirst).value;
              var greeting := Greeting(c, clientFirst, suffix, salt);
              && greeting.Ok?
              && var session := greeting.value;
                 && session.serverFirst == "r=" + session.serverNonce + ",s=" + c.encode(salt) + ",i=" + "4096"
                 && session.serverNonce == nonce + c.encode(suffix)
                 && session.clientFirstBare == bare && session.salt == salt
  {
  }

  // The server's verdict on an answer that parses: it accepts exactly the RFC's proof for the transcript,
  // and then returns what the RFC's client demands; otherwise it says whether the proof was
  // unreadable or wrong.
  lemma VerdictIff(c: Crypto, password: string, session: Session, answer: string)
    requires c.Sound()
    ensures ClientFinal(answer, session.serverNonce).Err? ==>
              Verdict(c, password, session, answer) == Err(ClientFinal(answer, session.serverNonce).error)
    ensures ClientFinal(answer, session.serverNonce).Ok? ==>
              var (withoutProof, proof) := ClientFinal(answer, session.serverNonce).value;
              var authMessage := session.clientFirstBare + "," + session.serverFirst + "," + withoutProof;
              var salted := c.pbkdf2(c.raw(password), session.salt, "4096");
              var verdict := Verdict(c, password, session, answer);
              && (verdict == Err(UndecodableProof) <==> c.decode(proof) == None)
              && (verdict.Ok? <==> c.decode(proof) == Some(RfcProof(c, salted, authMessage)))
              && (verdict.Err? ==> verdict.error in {UndecodableProof, WrongPassword})
              && (verdict.Ok? ==> ClientVerifies(c, ClientView(withoutProof, salted, authMessage), verdict.value))
  {
    if ClientFinal(answer, session.serverNonce).Ok? {
      var (withoutProof, proof) := ClientFinal(answer, session.serverNonce).value;
      var authMessage := session.clientFirstBare + "," + session.serverFirst + "," + withoutProof;
      var salted := c.pbkdf2(c.raw(password), session.salt, ITERATIONS);
      ProofIsRfc(c, salted, authMessage);
      SignatureVerifies(c, ClientView(withoutProof, salted, authMessage));
    }
  }

  lemma SignatureVerifies(c: Crypto, v: ClientView)
    requires c.Sound()
    ensures ClientVerifies(c, v, SignatureOf(c, v.salted, v.authMessage))
  {
    var signature := c.hmac(c.hmac(v.salted, c.raw("Server Key")), c.raw(v.authMessage));
    assert SERVER_KEY == "Server Key";
    assert ("v=" + c.encode(signature))[2..] == c.encode(signature);
    assert c.decode(c.encode(signature)) == Some(signature);
  }

  // An honest exchange completes. For every password, salt and random suffix, every client-first
  // message with a nonce, and every client-final message with a channel binding and extensions, the
  // client finds its nonce continued, the server accepts, and what it sends back is what the client
  // demands.
  lemma HonestExchangeCompletes(c: Crypto, password: string, suffix: bytes, salt: bytes,
                                before: seq<string>, nonce: string, after: seq<string>,
                                binding: string, extra: seq<string>)
    requires c.Sound()
    requires AllCommaFree(before) && AllCommaFree(after) && NoneHas(after, "r=") && CommaFree(nonce) && nonce != ""
    requires CommaFree(binding) && !("p=" <= binding) && !("r=" <= binding)
    requires AllCommaFree(extra) && NoneHas(extra, "p=") && NoneHas(extra, "r=")
    ensures var bare := Join(before + ["r=" + nonce] + after);
            var greeting := Greeting(c, "n,," + bare, suffix, salt);
            && greeting.Ok? && (suffix != [] ==> NonceContinued(greeting.value.serverFirst, nonce))
            && var v := ClientReads(c, password, bare, greeting.value.serverFirst, binding, extra);
               var verdict := Verdict(c, password, greeting.value, ClientAnswer(c, v));
               verdict.Ok? && ClientVerifies(c, v, verdict.value)
  {
    ClientFirstUndoesPrinting(before, nonce, after);
    var bare := Join(before + ["r=" + nonce] + after);
    GreetingIs(c, "n,," + bare, suffix, salt);
    var session := Greeting(c, "n,," + bare, suffix, salt).value;
    ViewsAgree(c, password, session, suffix, nonce, binding, extra);
    assert CommaFree(c.encode(suffix)) && CommaFree(c.encode(salt));
    assert suffix != [] ==> c.encode(suffix) != "";
    assert CommaFree(session.serverNonce);
    ServerFirstParses(session.serverNonce, c.encode(salt));
    var v := ClientReads(c, password, bare, session.serverFirst, binding, extra);
    AnswerParses(c, v, session.serverNonce, binding, extra);
    VerdictIff(c, password, session, ClientAnswer(c, v));
    var proof := RfcProof(c, v.salted, v.authMessage);
    assert c.decode(c.encode(proof)) == Some(proof);
  }
}
