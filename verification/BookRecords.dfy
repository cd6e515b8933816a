/** Source records and the identity each one's book receives. */
module BookRecords {
  import opened Counting
  import opened Colons

  datatype Author = Author(name: string, role: string)

  /** What a normalized record says about its book; `isbn` is empty when there is no valid one. */
  datatype Claim = Claim(isbn: string, coreDigest: string)

  datatype Strategy = Unassigned | Isbn | IsbnVariant | ContentFingerprint

  datatype Identity = Identity(entityId: string, strategy: Strategy)

  datatype Record = Record(claim: Claim, identity: Identity, source: Source, facts: Facts)

  datatype Source = Source(file: string, line: nat, recordId: string, rawDigest: string)

  /** A property value; `None` and the empty text are what the program calls missing. */
  datatype Value = None | Text(text: string) | Number(number: int) | Decimal(amount: real) | Listing(items: seq<string>)

  datatype Facts = Facts(title: string, foreignTitle: string, isbnRaw: string, publisher: string,
                         dateRaw: string, year: Value, month: Value, pages: Value, price: Value, format: string,
                         subjectRaw: string, summary: string, url: Value, urlDigest: Value,
                         authors: seq<Author>, keywords: seq<string>, subjectCode: string,
                         categoryCode: string, categoryName: string, topic: string)

  // ---------------------------------------------------------------- the rule

  function Claims(records: seq<Record>): set<Claim> {
    set r | r in records :: r.claim
  }

  /** The contents recorded under an ISBN. */
  function Variants(claims: set<Claim>, isbn: string): set<string> {
    set c | c in claims && c.isbn == isbn :: c.coreDigest
  }

  function Isbns(claims: set<Claim>): set<string> {
    set c | c in claims && c.isbn != "" :: c.isbn
  }

  function Conflicts(claims: set<Claim>): set<string> {
    set isbn | isbn in Isbns(claims) && |Variants(claims, isbn)| > 1
  }

  function Cut(digest: string, n: nat): string {
    if n <= |digest| then digest[..n] else digest
  }

  function IdentityOf(conflicts: set<string>, c: Claim): Identity {
    if c.isbn != "" then
      if c.isbn in conflicts then
        Identity("book:isbn:" + (c.isbn + ":" + ("variant:" + Cut(c.coreDigest, 20))), IsbnVariant)
      else Identity("book:isbn:" + c.isbn, Isbn)
    else Identity("book:content:" + Cut(c.coreDigest, 32), ContentFingerprint)
  }

  function Identified(conflicts: set<string>, r: Record): Record {
    r.(identity := IdentityOf(conflicts, r.claim))
  }

  function AllIdentified(conflicts: set<string>, records: seq<Record>): seq<Record> {
    seq(|records|, i requires 0 <= i < |records| => Identified(conflicts, records[i]))
  }

  // ---------------------------------------------------------------- the program

  ghost predicate GroupsOf(groups: map<string, set<string>>, claims: set<Claim>) {
    && groups.Keys == Isbns(claims)
    && forall isbn :: isbn in groups ==> groups[isbn] == Variants(claims, isbn)
  }

  lemma NextGroup(groups: map<string, set<string>>, claims: set<Claim>, c: Claim)
    requires GroupsOf(groups, claims)
    ensures c.isbn == "" ==> GroupsOf(groups, claims + {c})
    ensures c.isbn != "" ==>
      GroupsOf(groups[c.isbn := (if c.isbn in groups then groups[c.isbn] else {}) + {c.coreDigest}], claims + {c})
  {
    var more := claims + {c};
    if c.isbn == "" {
      assert Isbns(more) == Isbns(claims);
      forall isbn | isbn in groups
        ensures Variants(more, isbn) == Variants(claims, isbn)
      { }
    } else {
      assert Isbns(more) == Isbns(claims) + {c.isbn};
      assert Variants(more, c.isbn) == Variants(claims, c.isbn) + {c.coreDigest};
      if c.isbn !in groups {
        assert Variants(claims, c.isbn) == {};
      }
      forall isbn | isbn in groups && isbn != c.isbn
        ensures Variants(more, isbn) == Variants(claims, isbn)
      { }
    }
  }

  /** The positions whose ISBN is contested. */
  ghost function Contested(records: seq<Record>, conflicts: set<string>): set<nat> {
    set i: nat | i < |records| && records[i].claim.isbn in conflicts
  }

  lemma NextContested(records: seq<Record>, conflicts: set<string>, i: nat)
    requires i < |records|
    ensures |Contested(records[..i + 1], conflicts)| ==
      |Contested(records[..i], conflicts)| + if records[i].claim.isbn in conflicts then 1 else 0
  {
    assert Contested(records[..i + 1], conflicts) ==
      Contested(records[..i], conflicts) + if records[i].claim.isbn in conflicts then {i} else {};
  }

  /** The record list that intake mutates in place. */
  class RecordList {
    var records: seq<Record>

    constructor (parsed: seq<Record>)
      ensures records == parsed
    {
      records := parsed;
    }

    method GroupByIsbn() returns (groups: map<string, set<string>>)
      ensures GroupsOf(groups, Claims(records))
    {
      groups := map[];
      for i := 0 to |records|
        invariant GroupsOf(groups, Claims(records[..i]))
      {
        var c := records[i].claim;
        NextGroup(groups, Claims(records[..i]), c);
        assert Claims(records[..i + 1]) == Claims(records[..i]) + {c};
        if c.isbn != "" {
          groups := groups[c.isbn := (if c.isbn in groups then groups[c.isbn] else {}) + {c.coreDigest}];
        }
      }
      assert records[..|records|] == records;
    }

    method AssignIdentities(conflicts: set<string>)
      modifies this
      ensures records == AllIdentified(conflicts, old(records))
    {
      ghost var before := records;
      for i := 0 to |records|
        invariant |records| == |before|
        invariant forall k :: 0 <= k < i ==> records[k] == Identified(conflicts, before[k])
        invariant forall k :: i <= k < |before| ==> records[k] == before[k]
      {
        records := records[i := Identified(conflicts, records[i])];
      }
    }

    method CountIn(conflicts: set<string>) returns (n: nat)
      ensures n == |Contested(records, conflicts)|
    {
      n := 0;
      for i := 0 to |records|
        invariant n == |Contested(records[..i], conflicts)|
      {
        NextContested(records, conflicts, i);
        if records[i].claim.isbn in conflicts {
          n := n + 1;
        }
      }
      assert records[..|records|] == records;
    }

    /** Groups by ISBN first, then names every record; the counts are the ones the plan reports. */
    method AssignBookIdentities() returns (isbnGroups: nat, conflictGroups: nat, conflictingRecords: nat)
      modifies this
      ensures records == AllIdentified(Conflicts(Claims(old(records))), old(records))
      ensures isbnGroups == |Isbns(Claims(old(records)))|
      ensures conflictGroups == |Conflicts(Claims(old(records)))|
      ensures conflictingRecords == |Contested(old(records), Conflicts(Claims(old(records))))|
    {
      var groups := GroupByIsbn();
      var conflicts := set isbn | isbn in groups && |groups[isbn]| > 1;
      assert conflicts == Conflicts(Claims(records));
      isbnGroups, conflictGroups := |groups.Keys|, |conflicts|;
      AssignIdentities(conflicts);
      conflictingRecords := CountIn(conflicts);
      assert Contested(records, conflicts) == Contested(old(records), conflicts);
    }
  }

  // ---------------------------------------------------------------- what identities mean

  ghost predicate ClaimsReadable(claims: set<Claim>) {
    forall c :: c in claims ==> ColonFree(c.isbn) && |c.coreDigest| >= 32
  }

  lemma OneVariant(s: set<string>, a: string, b: string)
    requires |s| <= 1 && a in s && b in s
    ensures a == b
  {
    SubsetCount({a, b}, s);
    assert a != b ==> |{a, b}| == 2;
  }

  lemma UncontestedIsbn(claims: set<Claim>, c: Claim, e: Claim)
    requires c in claims && e in claims && c.isbn == e.isbn != "" && c.isbn !in Conflicts(claims)
    ensures c.coreDigest == e.coreDigest
  {
    assert c.isbn in Isbns(claims);
    OneVariant(Variants(claims, c.isbn), c.coreDigest, e.coreDigest);
  }

  /** Another content is recorded under the same ISBN. */
  ghost predicate Disputed(claims: set<Claim>, c: Claim) {
    exists e :: e in claims && e.isbn == c.isbn && e.coreDigest != c.coreDigest
  }

  lemma ConflictIffDisputed(claims: set<Claim>, c: Claim)
    requires c in claims && c.isbn != ""
    ensures c.isbn in Conflicts(claims) <==> Disputed(claims, c)
  {
    var variants := Variants(claims, c.isbn);
    assert c.coreDigest in variants && c.isbn in Isbns(claims);
    if Disputed(claims, c) {
      var e :| e in claims && e.isbn == c.isbn && e.coreDigest != c.coreDigest;
      SubsetCount({c.coreDigest, e.coreDigest}, variants);
    } else {
      assert variants == {c.coreDigest};
    }
  }

  /** The identifier and strategy a claim receives: the content's when it has no ISBN, the ISBN's when nothing else is
      recorded under it, and else the ISBN's with the content as a variant. */
  lemma IdentityTells(claims: set<Claim>, c: Claim)
    requires c in claims
    ensures IdentityOf(Conflicts(claims), c) ==
      if c.isbn == "" then Identity("book:content:" + Cut(c.coreDigest, 32), ContentFingerprint)
      else if Disputed(claims, c) then
        Identity("book:isbn:" + c.isbn + ":variant:" + Cut(c.coreDigest, 20), IsbnVariant)
      else Identity("book:isbn:" + c.isbn, Isbn)
  {
    if c.isbn != "" {
      ConflictIffDisputed(claims, c);
      var cut := Cut(c.coreDigest, 20);
      assert "book:isbn:" + (c.isbn + ":" + ("variant:" + cut)) == "book:isbn:" + c.isbn + ":variant:" + cut;
    }
  }

  /** What the identifiers of two claims compare: the ISBN, and a digest prefix where the ISBN alone does not decide. */
  ghost predicate SameBook(claims: set<Claim>, c: Claim, e: Claim) {
    && c.isbn == e.isbn
    && (c.isbn == "" ==> Cut(c.coreDigest, 32) == Cut(e.coreDigest, 32))
    && (c.isbn in Conflicts(claims) ==> Cut(c.coreDigest, 20) == Cut(e.coreDigest, 20))
  }

  lemma IsbnAgainstContent(a: string, b: string)
    ensures "book:isbn:" + a != "book:content:" + b
  {
    assert ("book:isbn:" + a)[5] == 'i';
    assert ("book:content:" + b)[5] == 'c';
  }

  lemma IsbnIdentifiers(conflicts: set<string>, c: Claim, e: Claim)
    requires ColonFree(c.isbn) && ColonFree(e.isbn) && c.isbn != "" && e.isbn != ""
    requires |c.coreDigest| >= 32 && |e.coreDigest| >= 32
    requires IdentityOf(conflicts, c).entityId == IdentityOf(conflicts, e).entityId
    ensures c.isbn == e.isbn && (c.isbn in conflicts ==> Cut(c.coreDigest, 20) == Cut(e.coreDigest, 20))
  {
    var cv, ev := "variant:" + Cut(c.coreDigest, 20), "variant:" + Cut(e.coreDigest, 20);
    var cTail := if c.isbn in conflicts then c.isbn + ":" + cv else c.isbn;
    var eTail := if e.isbn in conflicts then e.isbn + ":" + ev else e.isbn;
    SamePrefix("book:isbn:", cTail, eTail);
    if c.isbn in conflicts && e.isbn in conflicts {
      FirstPart(c.isbn, cv, e.isbn, ev);
      SamePrefix("variant:", Cut(c.coreDigest, 20), Cut(e.coreDigest, 20));
    } else {
      NotAPart(c.isbn, cv, e.isbn);
      NotAPart(e.isbn, ev, c.isbn);
    }
  }

  /** Two records share a book identifier exactly when they agree on the ISBN and on the digest prefix the
      identifier carries. */
  lemma SharedIdentifierIff(claims: set<Claim>, c: Claim, e: Claim)
    requires ClaimsReadable(claims) && c in claims && e in claims
    ensures IdentityOf(Conflicts(claims), c).entityId == IdentityOf(Conflicts(claims), e).entityId
      <==> SameBook(claims, c, e)
  {
    var conflicts := Conflicts(claims);
    if IdentityOf(conflicts, c).entityId == IdentityOf(conflicts, e).entityId {
      if c.isbn != "" && e.isbn != "" {
        IsbnIdentifiers(conflicts, c, e);
        assert c.isbn != "";
      } else if c.isbn == "" && e.isbn == "" {
        SamePrefix("book:content:", Cut(c.coreDigest, 32), Cut(e.coreDigest, 32));
      } else if c.isbn == "" {
        IsbnAgainstContent(if e.isbn in conflicts then e.isbn + ":" + ("variant:" + Cut(e.coreDigest, 20)) else e.isbn,
                           Cut(c.coreDigest, 32));
      } else {
        IsbnAgainstContent(if c.isbn in conflicts then c.isbn + ":" + ("variant:" + Cut(c.coreDigest, 20)) else c.isbn,
                           Cut(e.coreDigest, 32));
      }
    }
  }

  /** No two different contents of the batch share the digest prefix used in identifiers. */
  ghost predicate PrefixesDistinct(claims: set<Claim>) {
    forall c, e :: c in claims && e in claims && Cut(c.coreDigest, 20) == Cut(e.coreDigest, 20) ==>
      c.coreDigest == e.coreDigest
  }

  /** Up to digest-prefix collisions the identifier stands for the pair of ISBN and content. */
  lemma IdentifierIsIsbnAndContent(claims: set<Claim>, c: Claim, e: Claim)
    requires ClaimsReadable(claims) && PrefixesDistinct(claims) && c in claims && e in claims
    ensures IdentityOf(Conflicts(claims), c).entityId == IdentityOf(Conflicts(claims), e).entityId <==> c == e
  {
    SharedIdentifierIff(claims, c, e);
    if SameBook(claims, c, e) {
      if c.isbn == "" {
        assert Cut(c.coreDigest, 20) == Cut(Cut(c.coreDigest, 32), 20);
        assert Cut(e.coreDigest, 20) == Cut(Cut(e.coreDigest, 32), 20);
        assert Cut(c.coreDigest, 20) == Cut(e.coreDigest, 20);
      } else if c.isbn in Conflicts(claims) {
        assert Cut(c.coreDigest, 20) == Cut(e.coreDigest, 20);
      } else {
        UncontestedIsbn(claims, c, e);
      }
    }
  }

  /** The identifier a record receives does not depend on the order or repetition of the records. */
  lemma IdentityIgnoresOrder(records: seq<Record>, records': seq<Record>, i: nat, j: nat)
    requires forall r :: r in records <==> r in records'
    requires i < |records| && j < |records'| && records[i] == records'[j]
    ensures AllIdentified(Conflicts(Claims(records)), records)[i] ==
      AllIdentified(Conflicts(Claims(records')), records')[j]
  {
    assert Claims(records) == Claims(records');
  }
}
