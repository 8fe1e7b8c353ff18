/**
 * The data model: a column of raw values comes in, a field with its inferred
 * type goes out. The type variants are closed; the three temporal ones carry
 * the label of the catalog format that matched, so that a loader can parse
 * the values again with the same format.
 */
module FieldTypes {

  datatype FieldType =
    | Category
    | Boolean
    | ShortInt
    | Integer
    | LongInt
    | Float
    | LocalDateTime(format: string)
    | LocalTime(format: string)
    | LocalDate(format: string)
    | Text

  datatype Column = Column(name: string, values: seq<string>)

  datatype Field = Field(name: string, fieldType: FieldType)

  /** One entry of a format catalog: its name and the formatter's pattern. */
  datatype DateFormat = DateFormat(name: string, pattern: string)

  /** "value parses under pattern", the outcome of LocalDate.parse and its siblings. */
  type TemporalParser = (string, string) -> bool

}
