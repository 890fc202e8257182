/** The structure both e-mail builders produce: a title, a message, a
    table of name/value rows in alternating colours, an optional button
    and an optional footer. The surrounding HTML text is not modelled. */
module EmailLayout {
  import opened Base

  datatype DetailRow = DetailRow(background: string, name: string, value: string)

  datatype Button = Button(text: string, url: string, color: string)

  datatype Layout = Layout(title: string, titleColor: string, accentColor: string, message: string,
                           rows: seq<DetailRow>, button: Option<Button>, footer: Option<string>)

  /** Row `i` has background `even` when `i` is even and `odd` otherwise. */
  predicate Alternates(rows: seq<DetailRow>, even: string, odd: string)
  {
    forall i :: 0 <= i < |rows| ==> rows[i].background == (if i % 2 == 0 then even else odd)
  }

  /** The rows carry the given pairs, in order. */
  predicate Carries(rows: seq<DetailRow>, details: seq<(string, string)>)
  {
    |rows| == |details| && forall i :: 0 <= i < |rows| ==> rows[i].name == details[i].0 && rows[i].value == details[i].1
  }

  /** The row loop of both `build_email_html`s: one row per pair, in
      order, in alternating backgrounds. */
  method BuildRows(details: seq<(string, string)>, even: string, odd: string) returns (rows: seq<DetailRow>)
    ensures Carries(rows, details) && Alternates(rows, even, odd)
  {
    rows := [];
    var i := 0;
    while i < |details|
      invariant 0 <= i <= |details|
      invariant Carries(rows, details[..i]) && Alternates(rows, even, odd)
    {
      var background := if i % 2 == 0 then even else odd;
      rows := rows + [DetailRow(background, details[i].0, details[i].1)];
      i := i + 1;
    }
    assert details[..i] == details;
  }

  /** With two different colours, neighbouring rows never share one. */
  lemma NeighboursDiffer(rows: seq<DetailRow>, even: string, odd: string)
    requires Alternates(rows, even, odd) && even != odd
    ensures forall i :: 0 <= i < |rows| - 1 ==> rows[i].background != rows[i + 1].background
  {
    forall i | 0 <= i < |rows| - 1 ensures rows[i].background != rows[i + 1].background {
      assert (i % 2 == 0) != ((i + 1) % 2 == 0);
    }
  }
}
