/**
 * The PIN-gated contact panel (src/components/tabs/TabPanels/ContactPanel.tsx).
 * The remote `private_contact` query is an oracle from the trimmed code to the
 * lookup's outcome; `SingleMatch` says what that outcome is against a table.
 */
module ContactPanel {
  import opened Wrappers
  import opened JsText
  import JsArray

  /** A row of `private_contact`, without its timestamps. */
  datatype PrivateContact = PrivateContact(
    id: string,
    accessCode: Option<string>,
    phone: Option<string>,
    email: Option<string>,
    linkedinUrl: Option<string>,
    location: Option<string>)

  /**
   * What the awaited query yields: a row (`data`), no row or a query error
   * (`error || !data`, lines 49-53), or an exception (lines 57-59).
   */
  datatype Lookup = Found(row: PrivateContact) | NoMatch | Thrown

  const InvalidPin: string := "Invalid PIN."
  const WentWrong: string := "Something went wrong."

  /** The row test of `.eq("access_code", code)`. */
  function CarriesCode(code: string): PrivateContact -> bool {
    (c: PrivateContact) => c.accessCode == Some(code)
  }

  /**
   * The rows selected by `.eq("access_code", code)`: those carrying the code,
   * in table order, each as often as in the table.
   */
  function Matches(table: seq<PrivateContact>, code: string): (r: seq<PrivateContact>)
    ensures forall i :: 0 <= i < |r| ==> r[i] in table && r[i].accessCode == Some(code)
    ensures forall i :: 0 <= i < |table| && table[i].accessCode == Some(code) ==> table[i] in r
    ensures forall c :: multiset(r)[c] == if c.accessCode == Some(code) then multiset(table)[c] else 0
    ensures JsArray.IsSubsequence(r, table)
  {
    JsArray.FilterMultiplicity(table, CarriesCode(code));
    JsArray.Filter(table, CarriesCode(code))
  }

  /** Row `i` carries the code and no other row does. */
  predicate OnlyCarrier(table: seq<PrivateContact>, code: string, i: int) {
    0 <= i < |table| && table[i].accessCode == Some(code)
    && forall j :: 0 <= j < |table| && j != i ==> table[j].accessCode != Some(code)
  }

  /** The selection is a single row exactly when one row carries the code, and then it is that row. */
  lemma MatchesOfCarriers(table: seq<PrivateContact>, code: string)
    ensures forall i :: OnlyCarrier(table, code, i) ==> Matches(table, code) == [table[i]]
    ensures |Matches(table, code)| == 1 ==> exists i :: OnlyCarrier(table, code, i)
  {
    forall i | OnlyCarrier(table, code, i)
      ensures Matches(table, code) == [table[i]]
    {
      JsArray.FilterOne(table, CarriesCode(code), i);
    }
    var m := Matches(table, code);
    if |m| == 1 {
      var i :| 0 <= i < |table| && table[i] == m[0];
      forall j | 0 <= j < |table| && j != i
        ensures table[j].accessCode != Some(code)
      {
        if table[j].accessCode == Some(code) {
          if i < j {
            JsArray.FilterTwo(table, CarriesCode(code), i, j);
          } else {
            JsArray.FilterTwo(table, CarriesCode(code), j, i);
          }
        }
      }
      assert OnlyCarrier(table, code, i);
    }
  }

  /**
   * `.eq("access_code", code).single()` (lines 43-47): a row exactly when one
   * row carries the code, and then that row; none or several make the query fail.
   */
  function SingleMatch(table: seq<PrivateContact>, code: string): (r: Lookup)
    ensures !r.Thrown?
    ensures r.Found? <==> exists i :: OnlyCarrier(table, code, i)
    ensures forall i :: OnlyCarrier(table, code, i) ==> r == Found(table[i])
  {
    MatchesOfCarriers(table, code);
    var m := Matches(table, code);
    if |m| == 1 then Found(m[0]) else NoMatch
  }

  /** A code that no row carries finds nothing. */
  lemma UnknownCodeNoMatch(table: seq<PrivateContact>, code: string)
    requires forall i :: 0 <= i < |table| ==> table[i].accessCode != Some(code)
    ensures SingleMatch(table, code) == NoMatch
  {
  }

  /** A code that two rows carry finds nothing either: `.single()` fails. */
  lemma SharedCodeNoMatch(table: seq<PrivateContact>, code: string, i: nat, j: nat)
    requires i < j < |table|
    requires table[i].accessCode == Some(code) && table[j].accessCode == Some(code)
    ensures SingleMatch(table, code) == NoMatch
  {
  }

  /** A code carried by exactly one row, the sole row of the table, finds that row. */
  lemma SoleRowFound(c: PrivateContact, code: string)
    requires c.accessCode == Some(code)
    ensures SingleMatch([c], code) == Found(c)
  {
    assert OnlyCarrier([c], code, 0);
  }

  /** The locked form: the PIN field, the error line if any, and the submit button. */
  datatype Form = Form(pin: string, error: Option<string>, buttonLabel: string, disabled: bool)

  /** The unlocked details as rendered (lines 172-231). */
  datatype Details = Details(
    phone: string,
    emailHref: string,
    email: Option<string>,
    linkedinHref: string,
    linkedin: Option<string>,
    location: string)

  datatype View = Hidden | Shown(form: Option<Form>, details: Option<Details>)

  /**
   * The text of `x || fallback`: blank only when both are, which is why a
   * non-empty fallback keeps a details line from ever being blank.
   */
  function OrElse(x: Option<string>, fallback: string): (r: string)
    ensures r == [] <==> !Truthy(x) && fallback == []
    ensures Truthy(x) ==> r == x.value
    ensures !Truthy(x) ==> r == fallback
  {
    if Truthy(x) then x.value else fallback
  }

  /** The text of a template-literal `${x}` of a nullable string; `null` prints as "null". */
  function Interpolate(x: Option<string>): (r: string)
    ensures x.Some? ==> r == x.value
    ensures x.None? ==> r == "null"
  {
    match x
    case Some(v) => v
    case None => "null"
  }

  function DetailsOf(c: PrivateContact): (d: Details)
    ensures d.phone != [] && d.location != [] && d.linkedinHref != []
    ensures |d.emailHref| >= 7 && d.emailHref[..7] == "mailto:"
    ensures d.email == c.email && d.linkedin == c.linkedinUrl
  {
    Details(
      OrElse(c.phone, "\U{2014}"),
      "mailto:" + Interpolate(c.email),
      c.email,
      OrElse(c.linkedinUrl, "#"),
      c.linkedinUrl,
      OrElse(c.location, "\U{2014}"))
  }

  /**
   * A non-empty stored field is shown exactly as stored, and the email link
   * targets the stored address; a null email gives `mailto:null`, not `#`.
   */
  lemma StoredFieldsShown(c: PrivateContact)
    ensures Truthy(c.phone) ==> DetailsOf(c).phone == c.phone.value
    ensures Truthy(c.location) ==> DetailsOf(c).location == c.location.value
    ensures Truthy(c.linkedinUrl) ==> DetailsOf(c).linkedinHref == c.linkedinUrl.value
    ensures c.email.Some? ==> DetailsOf(c).emailHref == "mailto:" + c.email.value
    ensures c.email.None? ==> DetailsOf(c).emailHref == "mailto:null"
  {
  }

  /** Each empty or missing field is shown as a dash, and an empty LinkedIn URL links to `#`. */
  lemma BlankFieldsFallBack(c: PrivateContact)
    ensures !Truthy(c.phone) ==> DetailsOf(c).phone == "\U{2014}"
    ensures !Truthy(c.location) ==> DetailsOf(c).location == "\U{2014}"
    ensures !Truthy(c.linkedinUrl) ==> DetailsOf(c).linkedinHref == "#"
  {
  }

  /** The panel's five pieces of state (lines 29-33). */
  class Panel {
    var pin: string
    var verified: bool
    var loading: bool
    var contact: Option<PrivateContact>
    var error: Option<string>

    /** Unlocked always comes with the contact row that unlocked it. */
    ghost predicate Valid()
      reads this
    {
      verified ==> contact.Some?
    }

    constructor ()
      ensures Valid()
      ensures pin == "" && !verified && !loading && contact == None && error == None
    {
      pin, verified, loading, contact, error := "", false, false, None, None;
    }

    /** The input's `onChange` (line 139). */
    method SetPin(value: string)
      requires Valid()
      modifies this
      ensures Valid()
      ensures pin == value
      ensures verified == old(verified) && loading == old(loading)
      ensures contact == old(contact) && error == old(error)
    {
      pin := value;
    }

    /**
     * The synchronous start of `handleCheckPin` (lines 37-41): a blank PIN
     * stops here with nothing changed; otherwise the error is cleared,
     * loading starts, and the trimmed PIN is the code to look up.
     */
    method BeginCheck() returns (query: Option<string>)
      requires Valid()
      modifies this
      ensures Valid()
      ensures Trim(pin) == [] ==> query == None
      ensures Trim(pin) != [] ==> query == Some(Trim(pin)) && loading && error == None
      ensures query.None? ==> loading == old(loading) && error == old(error)
      ensures pin == old(pin) && verified == old(verified) && contact == old(contact)
    {
      var code := Trim(pin);
      if code == [] {
        return None;
      }
      loading := true;
      error := None;
      query := Some(code);
    }

    /**
     * The end of `handleCheckPin` once the query has answered (lines 49-62):
     * a row unlocks the panel, no row or an exception sets the matching
     * message, and loading is over in every case.
     */
    method FinishCheck(outcome: Lookup)
      requires Valid()
      modifies this
      ensures Valid()
      ensures !loading
      ensures outcome.Found? ==> verified && contact == Some(outcome.row) && error == old(error)
      ensures outcome.NoMatch? ==> error == Some(InvalidPin)
      ensures outcome.Thrown? ==> error == Some(WentWrong)
      ensures !outcome.Found? ==> verified == old(verified) && contact == old(contact)
      ensures pin == old(pin)
    {
      match outcome {
        case Found(row) =>
          contact := Some(row);
          verified := true;
        case NoMatch =>
          error := Some(InvalidPin);
        case Thrown =>
          error := Some(WentWrong);
      }
      loading := false;
    }

    /** A whole submission of the form, with the lookup as an oracle. */
    method HandleCheckPin(lookup: string -> Lookup) returns (query: Option<string>)
      requires Valid()
      modifies this
      ensures Valid()
      ensures Trim(old(pin)) == [] <==> query.None?
      ensures query.None? ==>
                pin == old(pin) && verified == old(verified) && loading == old(loading)
                && contact == old(contact) && error == old(error)
      ensures query.Some? ==> query.value == Trim(pin) && !loading
      ensures query.Some? && lookup(query.value).Found? ==>
                verified && contact == Some(lookup(query.value).row) && error == None
      ensures query.Some? && lookup(query.value).NoMatch? ==>
                error == Some(InvalidPin) && verified == old(verified)
      ensures query.Some? && lookup(query.value).Thrown? ==>
                error == Some(WentWrong) && verified == old(verified)
      ensures old(verified) ==> verified
      ensures pin == old(pin)
    {
      query := BeginCheck();
      if query.Some? {
        FinishCheck(lookup(query.value));
      }
    }

    /** What the component renders (lines 65 and 126-232). */
    function ViewOf(open: bool): (r: View)
      reads this
      ensures r.Hidden? <==> !open
      ensures r.Shown? ==> (r.form.Some? <==> !verified)
      ensures r.Shown? ==> (r.details.Some? <==> verified && contact.Some?)
      ensures r.Shown? && r.form.Some? ==>
                r.form.value.disabled == loading
                && r.form.value.buttonLabel == (if loading then "Checking..." else "Unlock")
                && (r.form.value.error.Some? <==> Truthy(error))
                && (Truthy(error) ==> r.form.value.error == error)
                && r.form.value.pin == pin
      ensures r.Shown? && r.details.Some? ==> r.details.value == DetailsOf(contact.value)
    {
      if !open then Hidden
      else
        Shown(
          if verified then None
          else Some(Form(pin, if Truthy(error) then error else None,
                         if loading then "Checking..." else "Unlock", loading)),
          if verified && contact.Some? then Some(DetailsOf(contact.value)) else None)
    }

    /** In a valid state an open panel shows exactly one of the form and the details. */
    lemma FormOrDetails(open: bool)
      requires Valid() && open
      ensures ViewOf(open).form.Some? != ViewOf(open).details.Some?
    {
    }
  }

  /** A padded code unlocks the panel when the table holds it once: the lookup uses the trimmed PIN. */
  method PaddedPinUnlocks(c: PrivateContact) returns (p: Panel)
    requires c.accessCode == Some("1234")
    ensures p.verified && p.contact == Some(c) && p.error == None && !p.loading
  {
    p := new Panel();
    p.SetPin(" 1234\t");
    TrimPadded(" ", "1234", "\t");
    assert " " + "1234" + "\t" == " 1234\t";
    SoleRowFound(c, "1234");
    var q := p.HandleCheckPin(code => SingleMatch([c], code));
  }
}
