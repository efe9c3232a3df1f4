/** The expense line: kRecordReg, parseMessage and Payment (serve.go:17,
    149-196). */
module Record {
  import opened Wrappers
  import opened GoStrings
  import opened Errors

  /** Go's `\s`: [\t\n\f\r ]. */
  predicate IsSpace(c: char)
  {
    c == ' ' || c == '\t' || c == '\n' || c == '\U{000C}' || c == '\r'
  }

  /** t[p..q] is matched by `\d+(?:\.\d*)?`. */
  ghost predicate DecimalAt(t: string, p: int, q: int)
    requires 0 <= p <= q <= |t|
  {
    exists k :: p < k <= q && AllInRange(t, p, k, IsDigit)
                && (k == q || (t[k] == '.' && AllInRange(t, k + 1, q, IsDigit)))
  }

  /** `([^\d]{2,})(\d+(?:\.\d*)?)\s*$` matches t from position s, with
      group 1 = t[s..p] and group 2 = t[p..q]. `[^\d]` takes any character
      but an ASCII digit (newlines included) and `$` is the end of the text. */
  ghost predicate MatchAt(t: string, s: int, p: int, q: int)
  {
    && 0 <= s && s + 2 <= p <= q <= |t|
    && AllInRange(t, s, p, IsNonDigit)
    && DecimalAt(t, p, q)
    && AllInRange(t, q, |t|, IsSpace)
  }

  /** Where the two submatches lie: group 1 is text[start..split], group 2
      is text[split..end]. */
  datatype Span = Span(start: nat, split: nat, end: nat)

  /** kRecordReg.FindStringSubmatch, read from the right: drop the trailing
      whitespace, take the number that ends there (digits, or digits '.'
      digits), then the run of non-digits before it, which must be at least
      two long. */
  function FindRecord(t: string): (m: Option<Span>)
    ensures m.Some? ==> m.value.start <= m.value.split <= m.value.end <= |t|
  {
    var e := RunStart(t, |t|, IsSpace);
    var j := RunStart(t, e, IsDigit);
    var p := if 2 <= j && t[j - 1] == '.' && IsDigit(t[j - 2]) then RunStart(t, j - 1, IsDigit) else j;
    if p == e then None
    else
      var s := RunStart(t, p, IsNonDigit);
      if p - s >= 2 then Some(Span(s, p, e)) else None
  }

  /** What FindRecord returns is a match of the expression, and group 1 is
      a whole run of non-digits. */
  lemma FindRecordMatches(t: string)
    requires FindRecord(t).Some?
    ensures var m := FindRecord(t).value;
      MatchAt(t, m.start, m.split, m.end) && (m.start == 0 || IsDigit(t[m.start - 1]))
  {
    var e := RunStart(t, |t|, IsSpace);
    var j := RunStart(t, e, IsDigit);
    if 2 <= j && t[j - 1] == '.' && IsDigit(t[j - 2]) {
      var p := RunStart(t, j - 1, IsDigit);
      assert AllInRange(t, p, j - 1, IsDigit) && t[j - 1] == '.' && AllInRange(t, j, e, IsDigit);
      assert IsDigit(t[j - 2]);
      assert DecimalAt(t, p, e);
    } else {
      assert AllInRange(t, j, e, IsDigit);
      assert DecimalAt(t, j, e);
    }
  }

  /** Any match of the expression is found: FindRecord returns the same
      number and a start at least as far left. Since at one start there is
      only one match, this is Go's leftmost-first answer. */
  lemma FindRecordFindsEveryMatch(t: string, s: int, p: int, q: int)
    requires MatchAt(t, s, p, q)
    ensures FindRecord(t).Some?
    ensures FindRecord(t).value.start <= s
    ensures FindRecord(t).value.split == p && FindRecord(t).value.end == q
  {
    var k :| p < k <= q && AllInRange(t, p, k, IsDigit)
             && (k == q || (t[k] == '.' && AllInRange(t, k + 1, q, IsDigit)));
    assert !IsSpace(t[q - 1]);
    RunStartExact(t, |t|, IsSpace, q);
    var e := RunStart(t, |t|, IsSpace);
    assert !IsDigit(t[p - 1]) && !IsDigit(t[p - 2]);
    if k == q {
      RunStartExact(t, e, IsDigit, p);
    } else {
      RunStartExact(t, e, IsDigit, k + 1);
      RunStartExact(t, k, IsDigit, p);
    }
    RunStartBelow(t, p, IsNonDigit, s);
  }

  /** A match at a given start is unique. */
  lemma MatchUnique(t: string, s: int, p: int, q: int, p': int, q': int)
    requires MatchAt(t, s, p, q) && MatchAt(t, s, p', q')
    ensures p == p' && q == q'
  {
    FindRecordFindsEveryMatch(t, s, p, q);
    FindRecordFindsEveryMatch(t, s, p', q');
  }

  /** No match exactly when FindRecord finds none. */
  lemma FindRecordNone(t: string)
    ensures FindRecord(t).None? <==> forall s, p, q :: !MatchAt(t, s, p, q)
  {
    if FindRecord(t).Some? {
      FindRecordMatches(t);
    } else {
      forall s, p, q ensures !MatchAt(t, s, p, q) {
        if MatchAt(t, s, p, q) {
          FindRecordFindsEveryMatch(t, s, p, q);
        }
      }
    }
  }

  // ---------------------------------------------------------------------
  // Payments

  /** A point in time; formatting it in Beijing time is not modelled. */
  type Instant = int

  /** The message of a chat update: sender id, chat id and text. */
  datatype Message = Message(from: int, chat: int, text: string)

  /** A parsed expense. The amount is kept as the decimal lexeme that
      strconv.ParseFloat receives. */
  datatype Payment = Payment(name: string, money: string, user: string, category: string, timestamp: Instant)

  /** parseMessage (serve.go:149-174). `floatOk` says whether
      strconv.ParseFloat(lexeme, 64) succeeds, `now` is time.Now(). */
  function ParseMessage(users: map<int, string>, m: Message, floatOk: string -> bool, now: Instant): (r: Result<Payment, Error>)
    ensures r.Success? ==> m.from in users && r.value.user == users[m.from]
    ensures r.Success? ==> r.value.category == [] && r.value.timestamp == now
  {
    if m.from !in users then Failure(UnknownUser(m.from))
    else
      match FindRecord(m.text)
      case None => Failure(InvalidMessage(m.text))
      case Some(g) =>
        var lexeme := m.text[g.split..g.end];
        if !floatOk(lexeme) then Failure(BadAmount(lexeme))
        else Success(Payment(Trim(m.text[g.start..g.split]), lexeme, users[m.from], [], now))
  }

  /** An unregistered sender is rejected whatever the text: the lookup comes
      first and the text is not looked at. */
  lemma UnknownSenderRejected(users: map<int, string>, m: Message, floatOk: string -> bool, now: Instant)
    requires m.from !in users
    ensures ParseMessage(users, m, floatOk, now) == Failure(UnknownUser(m.from))
  {
  }

  /** A registered sender's line that the expression matches, with an amount
      ParseFloat takes, gives the payment whose name is group 1 (the whole
      run of non-digits before the number) trimmed of ' ' and whose money is
      group 2. */
  lemma ParseMessageAccepts(users: map<int, string>, m: Message, floatOk: string -> bool, now: Instant, s: int, p: int, q: int)
    requires m.from in users && MatchAt(m.text, s, p, q) && floatOk(m.text[p..q])
    ensures ParseMessage(users, m, floatOk, now)
            == Success(Payment(Trim(m.text[RunStart(m.text, p, IsNonDigit)..p]), m.text[p..q], users[m.from], [], now))
  {
    FindRecordFindsEveryMatch(m.text, s, p, q);
    RunStartExact(m.text, p, IsNonDigit, FindRecord(m.text).value.start) by {
      FindRecordMatches(m.text);
    }
  }

  /** A registered sender's matched line whose amount ParseFloat refuses
      fails with that amount. */
  lemma ParseMessageBadAmount(users: map<int, string>, m: Message, floatOk: string -> bool, now: Instant, s: int, p: int, q: int)
    requires m.from in users && MatchAt(m.text, s, p, q) && !floatOk(m.text[p..q])
    ensures ParseMessage(users, m, floatOk, now) == Failure(BadAmount(m.text[p..q]))
  {
    FindRecordFindsEveryMatch(m.text, s, p, q);
  }

  /** A registered sender's line that the expression does not match is an
      invalid message. */
  lemma ParseMessageRejectsText(users: map<int, string>, m: Message, floatOk: string -> bool, now: Instant)
    requires m.from in users && forall s, p, q :: !MatchAt(m.text, s, p, q)
    ensures ParseMessage(users, m, floatOk, now) == Failure(InvalidMessage(m.text))
  {
    FindRecordNone(m.text);
  }

  /** Trimming blanks keeps a digit-free string digit-free. */
  lemma TrimNoDigits(x: string)
    requires forall i :: 0 <= i < |x| ==> !IsDigit(x[i])
    ensures forall i :: 0 <= i < |Trim(x)| ==> !IsDigit(Trim(x)[i])
  {
    var r := Trim(x);
    if r != [] {
      var lo :| 0 <= lo && lo + |r| <= |x| && r == x[lo..lo + |r|]
                && AllInRange(x, 0, lo, IsBlank) && AllInRange(x, lo + |r|, |x|, IsBlank);
      forall i | 0 <= i < |r| ensures !IsDigit(r[i]) {
        assert r[i] == x[lo + i];
      }
    }
  }

  /** A decimal inside t is a decimal on its own. */
  lemma DecimalSlice(t: string, p: int, q: int)
    requires 0 <= p <= q <= |t| && DecimalAt(t, p, q)
    ensures DecimalAt(t[p..q], 0, q - p)
  {
    var k :| p < k <= q && AllInRange(t, p, k, IsDigit)
             && (k == q || (t[k] == '.' && AllInRange(t, k + 1, q, IsDigit)));
    var x := t[p..q];
    assert forall i :: 0 <= i < |x| ==> x[i] == t[p + i];
    assert AllInRange(x, 0, k - p, IsDigit);
    assert k - p == |x| || (x[k - p] == '.' && AllInRange(x, k - p + 1, |x|, IsDigit));
  }

  /** The name of a payment never holds an ASCII digit, and its money is a
      lexeme of the form digits[.digits]. */
  lemma PaymentShape(users: map<int, string>, m: Message, floatOk: string -> bool, now: Instant)
    requires ParseMessage(users, m, floatOk, now).Success?
    ensures var pay := ParseMessage(users, m, floatOk, now).value;
      (forall i :: 0 <= i < |pay.name| ==> !IsDigit(pay.name[i]))
      && DecimalAt(pay.money, 0, |pay.money|)
  {
    var g := FindRecord(m.text).value;
    var pay := ParseMessage(users, m, floatOk, now).value;
    assert pay.name == Trim(m.text[g.start..g.split]) && pay.money == m.text[g.split..g.end];
    FindRecordMatches(m.text);
    NoDigitSlice(m.text, g.start, g.split);
    TrimNoDigits(m.text[g.start..g.split]);
    DecimalSlice(m.text, g.split, g.end);
  }

  /** A run of non-digits inside t is digit-free on its own. */
  lemma NoDigitSlice(t: string, lo: int, hi: int)
    requires 0 <= lo <= hi <= |t| && AllInRange(t, lo, hi, IsNonDigit)
    ensures forall i :: 0 <= i < hi - lo ==> !IsDigit(t[lo..hi][i])
  {
    forall i | 0 <= i < hi - lo ensures !IsDigit(t[lo..hi][i]) {
      assert t[lo..hi][i] == t[lo + i];
    }
  }

  // ---------------------------------------------------------------------
  // The sheet row

  /** One cell of a spreadsheet row: a string, a number (by its lexeme) or a
      point in time (written out in Beijing time). */
  datatype Cell = Text(s: string) | Number(lexeme: string) | Time(at: Instant)

  /** Payment.Values (serve.go:188-196). */
  function Values(p: Payment): (row: seq<Cell>)
    ensures |row| == 5
  {
    [Text(p.name), Number(p.money), Text(p.user), Text(p.category), Time(p.timestamp)]
  }

  /** The row appended for a parsed message is [name, money, user, "", time],
      with the sender's registered name and an empty category. */
  lemma RowOfParsedMessage(users: map<int, string>, m: Message, floatOk: string -> bool, now: Instant)
    requires ParseMessage(users, m, floatOk, now).Success?
    ensures var p := ParseMessage(users, m, floatOk, now).value;
      Values(p) == [Text(p.name), Number(p.money), Text(users[m.from]), Text(""), Time(now)]
  {
  }

  // ---------------------------------------------------------------------
  // Examples

  /** "taxi 23.8" from a registered sender is 23.8 spent on "taxi". */
  lemma TaxiExample(floatOk: string -> bool, now: Instant)
    requires floatOk("23.8")
    ensures ParseMessage(map[119838553 := "Sirius"], Message(119838553, 7, "taxi 23.8"), floatOk, now)
            == Success(Payment("taxi", "23.8", "Sirius", "", now))
  {
    var t := "taxi 23.8";
    assert FindRecord(t) == Some(Span(0, 5, 9)) by {
      assert RunStart(t, 9, IsSpace) == 9;
      assert RunStart(t, 9, IsDigit) == 8 by { assert RunStart(t, 8, IsDigit) == 8; }
      assert RunStart(t, 7, IsDigit) == 5 by { assert RunStart(t, 5, IsDigit) == 5; }
      RunStartExact(t, 5, IsNonDigit, 0);
    }
    assert t[5..9] == "23.8" && t[0..5] == "taxi ";
    assert Trim("taxi ") == "taxi" by {
      assert RunEnd("taxi ", 0, IsBlank) == 0;
      assert RunStart("taxi ", 5, IsBlank) == 4;
    }
  }

  /** "room101 45.50" is rejected: only the one blank between "101" and the
      number is non-digit. */
  lemma Room101Example()
    ensures FindRecord("room101 45.50") == None
  {
    var t := "room101 45.50";
    assert RunStart(t, 13, IsSpace) == 13;
    assert RunStart(t, 13, IsDigit) == 11 by { assert RunStart(t, 11, IsDigit) == 11; }
    assert RunStart(t, 10, IsDigit) == 8 by { assert RunStart(t, 8, IsDigit) == 8; }
    assert RunStart(t, 8, IsNonDigit) == 7 by { assert RunStart(t, 7, IsNonDigit) == 7; }
  }
}
