/** The sale records that flow from the transaction table through the search to the
    statistics, the prompt and the dashboard. */
module Records {
  import opened Wrappers

  /** One row of the table `valeurs_foncieres_idf_2024` as the search selects it
      (app.py:32): the eight selected columns. Columns the statistics test against
      `None` are optional. */
  datatype Row = Row(
    latitude: real,
    longitude: real,
    prixM2: Option<real>,
    typeLocal: Option<string>,
    dateMutation: Option<string>,
    surfaceReelleBati: Option<real>,
    idMutation: Option<string>,
    nombrePiecesPrincipales: Option<int>)

  /** A record of the search result: the row's columns and its distance in metres from the
      searched address. */
  datatype Bien = Bien(
    latitude: real,
    longitude: real,
    prixM2: Option<real>,
    typeLocal: Option<string>,
    dateMutation: Option<string>,
    surfaceReelleBati: Option<real>,
    idMutation: Option<string>,
    nombrePiecesPrincipales: Option<int>,
    distanceM: real)

  /** Python truthiness of an optional string: neither `None` nor `""`. */
  predicate TruthyText(s: Option<string>) {
    s.Some? && s.value != ""
  }

  /** Python truthiness of an optional number: neither `None` nor zero. */
  predicate TruthyNumber(x: Option<real>) {
    x.Some? && x.value != 0.0
  }
}
