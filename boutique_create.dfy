/** The store-creation endpoint (server/api/boutique/create.post.ts).

    The handler checks, in this order, that the name is present and not
    blank, that the access code is exactly six decimal digits, and that no
    stored store already uses the code; it then stores a new store with the
    trimmed name and the code. Each failed check answers with an HTTP error
    and stores nothing.
 */
module BoutiqueCreate {
  import opened Fetch

  // ---------------------------------------------------------------------
  // `String.prototype.trim`
  // ---------------------------------------------------------------------

  /** The characters `trim` removes: ECMAScript's WhiteSpace (tab, vertical
      tab, form feed, the byte order mark and every space separator) and its
      LineTerminator (line feed, carriage return, line and paragraph
      separators). */
  predicate IsWhitespace(c: char)
  {
    c == '\t' || c == '\n' || c == '\U{000B}' || c == '\U{000C}' || c == '\r' ||
    c == ' ' || c == '\U{00A0}' || c == '\U{1680}' ||
    ('\U{2000}' <= c <= '\U{200A}') ||
    c == '\U{2028}' || c == '\U{2029}' || c == '\U{202F}' || c == '\U{205F}' ||
    c == '\U{3000}' || c == '\U{FEFF}'
  }

  /** Drops the leading whitespace: the result is a suffix of `s`, what was
      dropped is all whitespace, and the result does not start with any. */
  function TrimStart(s: string): (r: string)
    ensures |r| <= |s| && r == s[|s| - |r|..]
    ensures forall k :: 0 <= k < |s| - |r| ==> IsWhitespace(s[k])
    ensures r == [] || !IsWhitespace(r[0])
  {
    if s != [] && IsWhitespace(s[0]) then TrimStart(s[1..]) else s
  }

  /** Drops the trailing whitespace: the result is a prefix of `s`, what was
      dropped is all whitespace, and the result does not end with any. */
  function TrimEnd(s: string): (r: string)
    ensures |r| <= |s| && r == s[..|r|]
    ensures forall k :: |r| <= k < |s| ==> IsWhitespace(s[k])
    ensures r == [] || !IsWhitespace(r[|r| - 1])
  {
    if s != [] && IsWhitespace(s[|s| - 1]) then TrimEnd(s[..|s| - 1]) else s
  }

  /** `String.prototype.trim`: leading, then trailing whitespace dropped. */
  function Trim(s: string): (r: string)
    ensures |r| <= |s|
  {
    TrimEnd(TrimStart(s))
  }

  /** A name trims to nothing exactly when it is all whitespace. */
  lemma TrimBlank(s: string)
    ensures Trim(s) == [] <==> forall k :: 0 <= k < |s| ==> IsWhitespace(s[k])
  {
    var t := TrimStart(s);
    if Trim(s) == [] {
      // what TrimEnd dropped is all of `t`, which cannot start with whitespace
      assert t == [];
    }
    if forall k :: 0 <= k < |s| ==> IsWhitespace(s[k]) {
      if t != [] {
        assert t[0] == s[|s| - |t|];
      }
    }
  }

  /** The trimmed name is the part `s[i..j]` of the name and everything
      outside that part is whitespace. */
  lemma TrimShape(s: string) returns (i: nat, j: nat)
    ensures i <= j <= |s| && Trim(s) == s[i..j]
    ensures forall k :: 0 <= k < i ==> IsWhitespace(s[k])
    ensures forall k :: j <= k < |s| ==> IsWhitespace(s[k])
  {
    var t := TrimStart(s);
    var r := TrimEnd(t);
    i := |s| - |t|;
    j := i + |r|;
    SliceOfSuffix(s, i, |r|);
    forall k | j <= k < |s| ensures IsWhitespace(s[k]) {
      assert s[k] == t[k - i];
    }
  }

  /** The trimmed name has whitespace at neither end. */
  lemma TrimEdges(s: string)
    ensures Trim(s) == [] || (!IsWhitespace(Trim(s)[0]) && !IsWhitespace(Trim(s)[|Trim(s)| - 1]))
  {
    var t := TrimStart(s);
    var r := TrimEnd(t);
    if r != [] {
      assert r[0] == t[0];
    }
  }

  /** Proof helper: a prefix of a suffix is a slice. */
  lemma SliceOfSuffix(s: string, i: nat, n: nat)
    requires i + n <= |s|
    ensures s[i..][..n] == s[i..i + n]
  {
  }

  /** Trimming a trimmed name changes nothing. */
  lemma TrimIdempotent(s: string)
    ensures Trim(Trim(s)) == Trim(s)
  {
    TrimEdges(s);
    var r := Trim(s);
    assert TrimStart(r) == r;
    assert TrimEnd(r) == r;
  }

  // ---------------------------------------------------------------------
  // `/^\d{6}$/.test(code)`
  // ---------------------------------------------------------------------

  predicate IsDigit(c: char)
  {
    '0' <= c <= '9'
  }

  /** The anchored pattern `^\d{n}$`, matched one character at a time:
      exactly `n` digits and then the end of the input. */
  predicate MatchesDigits(s: string, n: nat)
    ensures MatchesDigits(s, n) ==> |s| == n
  {
    if n == 0 then s == []
    else s != [] && IsDigit(s[0]) && MatchesDigits(s[1..], n - 1)
  }

  /** What the pattern accepts: exactly `n` characters, every one a digit. */
  lemma {:induction false} MatchesDigitsShape(s: string, n: nat)
    ensures MatchesDigits(s, n) <==> |s| == n && forall k :: 0 <= k < |s| ==> IsDigit(s[k])
  {
    if n > 0 && s != [] {
      MatchesDigitsShape(s[1..], n - 1);
      if |s| == n && forall k :: 0 <= k < |s[1..]| ==> IsDigit(s[1..][k]) {
        forall k | 0 <= k < |s| ensures IsDigit(s[k]) || k == 0 {
          if k > 0 {
            assert s[k] == s[1..][k - 1];
          }
        }
      }
    }
  }

  /** The six-digit access code. */
  predicate IsPin(code: string)
    ensures IsPin(code) ==> |code| == 6
  {
    MatchesDigits(code, 6)
  }

  /** A code passes the check exactly when it has six characters, each in
      '0'..'9'. */
  lemma PinShape(code: string)
    ensures IsPin(code) <==> |code| == 6 && forall k :: 0 <= k < 6 ==> '0' <= code[k] <= '9'
  {
    MatchesDigitsShape(code, 6);
  }

  // ---------------------------------------------------------------------
  // The handler
  // ---------------------------------------------------------------------

  /** A stored store; `id` is the primary key the table assigns. */
  datatype Boutique = Boutique(id: nat, name: string, code: string)

  datatype HttpError = HttpError(statusCode: int, message: string)

  datatype Response = Created(boutique: Boutique) | Refused(error: HttpError)

  const NameRequired := HttpError(400, "Le nom de la boutique est requis")
  const PinMalformed := HttpError(400, "Le code PIN doit contenir exactement 6 chiffres")
  const PinTaken := HttpError(409, "Ce code PIN est déjà utilisé. Choisissez un autre code.")

  /** `!name || !name.trim()`: the name is absent, empty or blank. */
  predicate NameMissing(name: Option<string>)
    ensures !NameMissing(name) ==> name.Some? && |name.value| > 0
  {
    name.None? || Trim(name.value) == ""
  }

  /** `!code || !/^\d{6}$/.test(code)`. */
  predicate CodeMalformed(code: Option<string>)
    ensures !CodeMalformed(code) ==> code.Some? && |code.value| == 6
  {
    code.None? || !IsPin(code.value)
  }

  function Codes(table: seq<Boutique>): set<string>
  {
    set b | b in table :: b.code
  }

  ghost predicate DistinctCodes(table: seq<Boutique>)
  {
    forall i, j :: 0 <= i < j < |table| ==> table[i].code != table[j].code
  }

  /** The reply and the table after one request. */
  datatype Outcome = Outcome(response: Response, table: seq<Boutique>)

  /** One request against a table whose next key is `nextId`. */
  function Handle(table: seq<Boutique>, nextId: nat, name: Option<string>, code: Option<string>): (out: Outcome)
    // the name is checked first, then the code's shape, then its uniqueness
    ensures NameMissing(name) ==> out.response == Refused(NameRequired)
    ensures !NameMissing(name) && CodeMalformed(code) ==> out.response == Refused(PinMalformed)
    ensures !NameMissing(name) && !CodeMalformed(code) ==>
              (out.response == Refused(PinTaken) <==> code.value in Codes(table))
    // a refusal stores nothing
    ensures out.response.Refused? ==> out.table == table
    // a request succeeds exactly when every check passes
    ensures out.response.Created? <==>
              !NameMissing(name) && !CodeMalformed(code) && code.value !in Codes(table)
    // a success stores exactly one store: the trimmed name with the code
    ensures out.response.Created? ==>
              out.response.boutique == Boutique(nextId, Trim(name.value), code.value) &&
              out.table == table + [out.response.boutique]
  {
    if NameMissing(name) then Outcome(Refused(NameRequired), table)
    else if CodeMalformed(code) then Outcome(Refused(PinMalformed), table)
    else if code.value in Codes(table) then Outcome(Refused(PinTaken), table)
    else
      var b := Boutique(nextId, Trim(name.value), code.value);
      Outcome(Created(b), table + [b])
  }

  /** One request keeps the stored codes pairwise distinct. */
  lemma HandleKeepsCodesDistinct(table: seq<Boutique>, nextId: nat, name: Option<string>, code: Option<string>)
    requires DistinctCodes(table)
    ensures DistinctCodes(Handle(table, nextId, name, code).table)
  {
    var out := Handle(table, nextId, name, code);
    if out.response.Created? {
      var t := out.table;
      forall i, j | 0 <= i < j < |t| ensures t[i].code != t[j].code {
        if j == |table| {
          assert t[i] in table;
        } else {
          assert t[i] == table[i] && t[j] == table[j];
        }
      }
    }
  }

  datatype Request = Request(name: Option<string>, code: Option<string>)

  /** A run of requests, one after another; each success takes the next
      key. */
  function Replay(table: seq<Boutique>, nextId: nat, reqs: seq<Request>): seq<Boutique>
    decreases |reqs|
  {
    if reqs == [] then table
    else
      var out := Handle(table, nextId, reqs[0].name, reqs[0].code);
      Replay(out.table, if out.response.Created? then nextId + 1 else nextId, reqs[1..])
  }

  /** Under sequential requests the stored codes stay pairwise distinct. */
  lemma {:induction false} ReplayKeepsCodesDistinct(table: seq<Boutique>, nextId: nat, reqs: seq<Request>)
    requires DistinctCodes(table)
    ensures DistinctCodes(Replay(table, nextId, reqs))
    decreases |reqs|
  {
    if reqs != [] {
      var out := Handle(table, nextId, reqs[0].name, reqs[0].code);
      HandleKeepsCodesDistinct(table, nextId, reqs[0].name, reqs[0].code);
      ReplayKeepsCodesDistinct(out.table, if out.response.Created? then nextId + 1 else nextId, reqs[1..]);
    }
  }

  /** The store table, read and written by the handler. */
  class BoutiqueTable {
    var rows: seq<Boutique>
    var nextId: nat

    /** Codes are unique (the column's constraint) and every stored key is
        below the next one to assign. */
    ghost predicate Valid()
      reads this
    {
      DistinctCodes(rows) &&
      forall k :: 0 <= k < |rows| ==> rows[k].id < nextId
    }

    constructor ()
      ensures Valid() && rows == [] && nextId == 1
    {
      rows, nextId := [], 1;
    }

    /** `findUnique({ where: { code } })`. */
    method FindByCode(code: string) returns (found: Option<Boutique>)
      ensures found.Some? <==> code in Codes(rows)
      ensures found.Some? ==> found.value in rows && found.value.code == code
    {
      var i := 0;
      while i < |rows|
        invariant 0 <= i <= |rows|
        invariant forall k :: 0 <= k < i ==> rows[k].code != code
      {
        if rows[i].code == code {
          return Some(rows[i]);
        }
        i := i + 1;
      }
      return None;
    }

    /** The handler: checks, lookup, insert. */
    method Create(name: Option<string>, code: Option<string>) returns (response: Response)
      requires Valid()
      modifies this
      ensures Valid()
      ensures var out := Handle(old(rows), old(nextId), name, code);
              response == out.response && rows == out.table
      ensures nextId == if response.Created? then old(nextId) + 1 else old(nextId)
    {
      if NameMissing(name) {
        return Refused(NameRequired);
      }
      if CodeMalformed(code) {
        return Refused(PinMalformed);
      }
      var existing := FindByCode(code.value);
      if existing.Some? {
        return Refused(PinTaken);
      }
      HandleKeepsCodesDistinct(rows, nextId, name, code);
      var b := Boutique(nextId, Trim(name.value), code.value);
      rows := rows + [b];
      nextId := nextId + 1;
      response := Created(b);
    }
  }
}
