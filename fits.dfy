/** The opened data file as the validation rules see it: the primary HDU
    (header/data unit) of a FITS file, with its header of scalar cards and
    its data attribute. */
module Fits {

  /** A header card value: FITS headers hold strings, booleans and numbers. */
  datatype HVal = Str(s: string) | Bool(b: bool) | Int(i: int) | Float(r: real)

  /** The header: keys are unique, so a map. The order of cards is not modelled. */
  type Header = map<string, HVal>

  /** What `hdu.data` is: no such attribute at all, the attribute holding
      None, or an array; only the array's shape is kept. */
  datatype DataAttr = NoAttr | NoneData | Present(shape: seq<nat>)

  /** The primary HDU, `fits_file[0]`. Rules repair it in place, so it is an
      object whose header the fixing rules reassign. */
  class Hdu {
    var header: Header
    var data: DataAttr

    constructor (header: Header, data: DataAttr)
      ensures this.header == header && this.data == data
    {
      this.header := header;
      this.data := data;
    }
  }

  /** The result of `fits.open`: every exception it may raise collapses
      into the one `OpenFailed` case, as the bare `except` does. */
  datatype OpenResult = OpenFailed | Opened(hdu: Hdu)
}
