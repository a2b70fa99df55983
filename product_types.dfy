/**
 * The product record and the explicit day count that replaces the
 * source's reading of the wall clock.
 */
module ProductTypes {
  import opened Wrappers

  /**
   * A calendar date. The stored `expiry_date` is the text 'YYYY-MM-DD';
   * the model keeps its three numbers.
   */
  datatype Date = Date(year: nat, month: nat, day: nat)

  /**
   * The number of days from 1970-01-01 to `d` in the proleptic Gregorian
   * calendar (months 1..12). Dividing by positive constants, Dafny's
   * Euclidean division is the floor division the formula needs.
   */
  function DayNumber(d: Date): int {
    var y: int := d.year - (if d.month <= 2 then 1 else 0);
    var era := y / 400;
    var yearOfEra := y - era * 400;
    var shiftedMonth := (d.month + 9) % 12;
    var dayOfYear := (153 * shiftedMonth + 2) / 5 + d.day - 1;
    var dayOfEra := yearOfEra * 365 + yearOfEra / 4 - yearOfEra / 100 + dayOfYear;
    era * 146097 + dayOfEra - 719468
  }

  const Normal := "normal"
  const FirstMarkdown := "primeira_rebaixa"
  const SecondMarkdown := "segunda_rebaixa"

  /** The three statuses the database stores. */
  predicate IsKnownStatus(s: string) {
    s == Normal || s == FirstMarkdown || s == SecondMarkdown
  }

  /**
   * A product row. `status` is a string because the source compares it
   * with arbitrary filter values and stores unchecked values in bulk
   * updates.
   */
  datatype Product = Product(
    id: string,
    userId: string,
    name: string,
    brand: string,
    barcode: Option<string>,
    expiry: Date,
    quantity: int,
    status: string,
    createdAt: string,
    updatedAt: Option<string>)

  /**
   * `getDaysUntilExpiry`: the signed number of days from `today` (a day
   * number) to the product's expiry date; negative once it has passed.
   */
  function DaysUntilExpiry(p: Product, today: int): int {
    DayNumber(p.expiry) - today
  }

  /** `brand || fallback`: an empty session label falls back to a placeholder. */
  function SessionKey(brand: string, fallback: string): string {
    if brand == "" then fallback else brand
  }
}
