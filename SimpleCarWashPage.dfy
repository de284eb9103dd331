/** The earlier car-wash form of the React app: a plate, a captured image and six
    single-choice service fields, saved as one record and then cleared. The page keeps
    these in React state, modelled by the class SimpleCarWashForm. */
module SimpleCarWashPage {
  import opened Wrappers
  import JsText

  /** The service choices; the empty string means "not chosen". */
  datatype ServiceSheet = ServiceSheet(
    rego: string, engineOil: string, wipers: string, tires: string,
    interior: string, exterior: string)

  const BlankSheet := ServiceSheet("", "", "", "", "", "")

  datatype Field = Rego | EngineOil | Wipers | Tires | Interior | Exterior

  function FieldOf(s: ServiceSheet, f: Field): string {
    match f
    case Rego => s.rego
    case EngineOil => s.engineOil
    case Wipers => s.wipers
    case Tires => s.tires
    case Interior => s.interior
    case Exterior => s.exterior
  }

  /** A blank sheet has no choice in any field, and only it. */
  lemma BlankSheetIsBlank(s: ServiceSheet)
    ensures s == BlankSheet <==> forall f :: FieldOf(s, f) == ""
  {
    if forall f :: FieldOf(s, f) == "" {
      assert FieldOf(s, Rego) == "" && FieldOf(s, EngineOil) == "" && FieldOf(s, Wipers) == "";
      assert FieldOf(s, Tires) == "" && FieldOf(s, Interior) == "" && FieldOf(s, Exterior) == "";
    }
  }

  /** `{...prev, [category]: value}` */
  function WithField(s: ServiceSheet, f: Field, value: string): (r: ServiceSheet)
    ensures FieldOf(r, f) == value
    ensures forall g :: g != f ==> FieldOf(r, g) == FieldOf(s, g)
  {
    match f
    case Rego => s.(rego := value)
    case EngineOil => s.(engineOil := value)
    case Wipers => s.(wipers := value)
    case Tires => s.(tires := value)
    case Interior => s.(interior := value)
    case Exterior => s.(exterior := value)
  }

  /** Of two changes to the same field the later one wins. */
  lemma WithFieldLastWins(s: ServiceSheet, f: Field, a: string, b: string)
    ensures WithField(WithField(s, f, a), f, b) == WithField(s, f, b)
  {
    var l, r := WithField(WithField(s, f, a), f, b), WithField(s, f, b);
    forall g ensures FieldOf(l, g) == FieldOf(r, g) {
    }
    assert l.rego == FieldOf(l, Rego) && l.engineOil == FieldOf(l, EngineOil);
    assert l.wipers == FieldOf(l, Wipers) && l.tires == FieldOf(l, Tires);
    assert l.interior == FieldOf(l, Interior) && l.exterior == FieldOf(l, Exterior);
    assert r.rego == FieldOf(r, Rego) && r.engineOil == FieldOf(r, EngineOil);
    assert r.wipers == FieldOf(r, Wipers) && r.tires == FieldOf(r, Tires);
    assert r.interior == FieldOf(r, Interior) && r.exterior == FieldOf(r, Exterior);
  }

  /** The record the page builds (timestamp and date come from the clock and are not modelled). */
  datatype SheetRecord = SheetRecord(licensePlate: string, image: Option<string>, serviceRecord: ServiceSheet)

  const EmptyPlateMessage := "请先输入或识别车牌号"
  const SavedMessage := "记录保存成功！"

  class SimpleCarWashForm {
    var licensePlate: string
    var capturedImage: Option<string>
    var isLoading: bool
    var service: ServiceSheet

    constructor()
      ensures licensePlate == "" && capturedImage == None && !isLoading && service == BlankSheet
    {
      licensePlate := "";
      capturedImage := None;
      isLoading := false;
      service := BlankSheet;
    }

    /** `handleLicensePlateChange`: the plate is kept upper-cased. */
    method LicensePlateChange(input: string)
      modifies this
      ensures licensePlate == JsText.Upper(input)
      ensures capturedImage == old(capturedImage) && isLoading == old(isLoading) && service == old(service)
    {
      licensePlate := JsText.Upper(input);
    }

    /** `handleServiceChange(category, value)` */
    method ServiceChange(f: Field, value: string)
      modifies this
      ensures service == WithField(old(service), f, value)
      ensures licensePlate == old(licensePlate) && capturedImage == old(capturedImage) && isLoading == old(isLoading)
    {
      service := WithField(service, f, value);
    }

    /** `handleSaveRecord`: without a plate only the alert is shown; otherwise the record
        is built from the form and the form is cleared. Returns the record and the alert. */
    method SaveRecord() returns (record: Option<SheetRecord>, message: string)
      modifies this
      ensures old(licensePlate) == "" ==>
                record == None && message == EmptyPlateMessage &&
                licensePlate == old(licensePlate) && capturedImage == old(capturedImage) && service == old(service)
      ensures old(licensePlate) != "" ==>
                record == Some(SheetRecord(old(licensePlate), old(capturedImage), old(service))) &&
                message == SavedMessage &&
                licensePlate == "" && capturedImage == None && service == BlankSheet
      ensures isLoading == old(isLoading)
    {
      if licensePlate == "" {
        return None, EmptyPlateMessage;
      }
      record := Some(SheetRecord(licensePlate, capturedImage, service));
      message := SavedMessage;
      licensePlate := "";
      capturedImage := None;
      service := BlankSheet;
    }
  }
}
