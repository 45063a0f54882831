# uesave in Dafny

This project models uesave, a reader and writer for Unreal Engine SaveGame files (GVAS). It covers three parts in Dafny:

- **`uesave/__init__.py`, the GVAS codec.** It reads the header (magic, save-game version, file versions, engine version, custom-version table, class name). It reads the property list: fourteen classes of tagged records, with structs and arrays nested inside. It also writes both back.
- **`uesave.py`, the older stand-alone decoder.** It has its own property classes, its own `size` rules, and a header parser that tries four layouts for the custom-version table one after another.
- **`uesave/webapp.py`, the pure parts of the web front end.** These are the upload-name checks, `_sanitize_filename`, the one-line value preview `_format_prop_value`, and the tree of display nodes `create_node`.

The model takes the form of the code it models:

- **Reading.** The decoders are total functions over `seq<byte>` that return a `Result`. Each Python exception is a constructor of `Bytes.Error`, such as `StructError`, `IndexError`, `AssertionError`, `ValueError(msg)` and `NotImplementedError(msg)`. The loops of the Python code are `while`/`for` methods: modules `Reader`, `LegacyReader` and `LegacyHeader`. Each is proved to return exactly what its specification function returns.
- **Writing.** The writer appends to a `bytearray`. It is the class `Writer.ByteArray`, whose `bytes` field every method extends. Each method is proved to append exactly the bytes of an encoding function in module `Encode` or `Header`, or to report the exception that function raises.
- **Properties proved:**
  - round trips: `bytes.fromhex`/`hex`, `_read_guid`/`_write_guid`, UTF-8, `int(str(v))`, whole records of several classes, and the whole header;
  - framing: offsets, sizes and terminators;
  - order and completeness of the property loops;
  - the layout choice of the older header parser;
  - the web app's guarantees about names, previews and nodes.

Module layout:

| file | module | models |
|---|---|---|
| bytes.dfy | Bytes | `struct` packing and unpacking, slices, `assert`, the error kinds |
| unicode.dfy | Unicode | UTF-8 encoding, UTF-8/UTF-16 decoding with `errors='ignore'`, `rstrip('\x00')` |
| fstring.dfy | FString | `_read_string` / `_write_string` (and `read_string` of uesave.py) |
| guid.dfy | Guid | `_read_guid` / `_write_guid`, `bytes.hex`, `bytes.fromhex` |
| decimal.dfy | Decimal | `str()` and `int()` of Python ints |
| properties.dfy | Properties | the fourteen property classes of uesave/__init__.py and `PropertyFactory` |
| decode.dfy | Decode | `_read_property`, every `from_bytes`, `_read_properties` |
| reader.dfy | Reader | the same readers as loops |
| encode.dfy | Encode | `_write_property`, every `to_bytes`, `_write_properties` |
| writer.dfy | Writer | the same writers on a mutable byte buffer |
| header.dfy | Header | `_read_gvas_header`, `_write_gvas_header`, `_plausible_class_name` |
| header_roundtrip.dfy | HeaderRoundTrip | reading back a written header |
| roundtrip.dfy | Framing, RecordReads, RoundTrip | reading back a written record |
| legacy.dfy | Legacy | the property classes, `size` rules and decoder of uesave.py |
| legacy_reader.dfy | LegacyReader | the loops of that decoder |
| legacy_header.dfy | LegacyHeader | `parse_gvas_header` of uesave.py |
| webapp.dfy | WebApp | `_sanitize_filename`, the upload checks, `_format_prop_value`, `create_node` |

How the Python code's forms appear in the model:

- **Integers.** Integers are unbounded. Every 16-, 32- and 64-bit field is range-checked as `struct` does it: `struct.error` outside the range, or `& 0xFFFFFFFF` masking where the writer masks.
- **Strings.** A `string` is a sequence of Unicode scalar values.
- **Floats.** Float and double payloads are kept as their raw 4 or 8 bytes. The model never interprets them.
- **Offsets.** Offset arithmetic is written out as the code does it. A slice past the end is clipped, which is why `_read_string` may return a short payload but still advances by the full claimed length.

In uesave.py, struct and struct-array fields loop `while offset < prop_size`. That compares an absolute offset with a byte count (see "## Findings"). The legacy decoder therefore takes a `Bound` parameter:

- `AsWritten` models that comparison.
- `Intended` compares with `start + prop_size`, as uesave/__init__.py does.

The lemmas show where the two differ. Every other statement about the legacy decoder holds for both.

## Model

| member | source | states |
|---|---|---|
| Bytes.ReadU32 | uesave/__init__.py:23-24 | succeeds exactly when 4 bytes remain; the value is below 2^32 and the offset moves 4 |
| Bytes.ReadI32 | uesave/__init__.py:31-32 | succeeds exactly when 4 bytes remain; the value is in the int32 range and the offset moves 4 |
| Bytes.ReadU16 | uesave/__init__.py:39-40 | succeeds exactly when 2 bytes remain; the value is below 2^16 and the offset moves 2 |
| Bytes.ReadU64 | uesave/__init__.py:737-741 | `'<Q'`: succeeds exactly when 8 bytes remain, value below 2^64 |
| Bytes.ReadI64 | uesave/__init__.py:420-424 | `'<q'`: succeeds exactly when 8 bytes remain, value in the int64 range |
| Bytes.ReadRaw | uesave/__init__.py:370-374 | a float or double payload: succeeds exactly when n bytes remain and holds n bytes |
| Bytes.U32Bytes | uesave/__init__.py:27-28 | `_write_u32` never fails and always gives 4 bytes |
| Bytes.U16Bytes | uesave/__init__.py:43-44 | `_write_u16` never fails and always gives 2 bytes |
| Bytes.I32Bytes | uesave/__init__.py:35-36 | `_write_i32` fails exactly outside the int32 range and otherwise gives 4 bytes |
| Bytes.I64Bytes | uesave/__init__.py:426-427 | `'<q'` packing fails exactly outside the int64 range |
| Bytes.U64Bytes | uesave/__init__.py:746-748 | `'<Q'` packing fails exactly outside 0..2^64-1 |
| Bytes.Check | uesave/__init__.py:218 | `assert cond` succeeds exactly when cond holds, else `AssertionError` |
| Bytes.ByteAt | uesave/__init__.py:218 | `data[offset]` succeeds exactly before the end and gives that byte, else `IndexError` |
| Bytes.Slice | uesave/__init__.py:222 | `data[lo:hi]` is the in-range part of the slice, never longer than `hi - lo` |
| Bytes.FromLEOfToLE | uesave/__init__.py:27-28 | the little-endian value of the n-byte form of v < 256^n is v |
| Bytes.ToLEOfFromLE | uesave/__init__.py:23-24 | writing back the value of n little-endian bytes gives those bytes |
| Bytes.ReadU32OfU32Bytes | uesave/__init__.py:23-28 | `_read_u32` of `_write_u32(v)` is `v & 0xFFFFFFFF`, 4 bytes on |
| Bytes.ReadU16OfU16Bytes | uesave/__init__.py:39-44 | `_read_u16` of `_write_u16(v)` is `v & 0xFFFF`, 2 bytes on |
| Bytes.ReadI32OfI32Bytes | uesave/__init__.py:31-36 | `_read_i32` of a successful `_write_i32(v)` is v |
| Bytes.ReadU32OfI32Bytes | uesave/__init__.py:220 | a count below 2^31 written as i32 reads back unchanged as u32 |
| Bytes.ReadI64OfI64Bytes | uesave/__init__.py:420-427 | an int64 written and read back is unchanged |
| Bytes.ReadU64OfU64Bytes | uesave/__init__.py:737-748 | a uint64 written and read back is unchanged |
| Bytes.ReadU16OfU32Bytes | uesave/__init__.py:789-790 | peeking a u16 at a written u32 gives its low 16 bits |
| Bytes.U32BytesOfReadU32 | uesave/__init__.py:23-28 | writing back a u32 that was read reproduces its 4 bytes |
| Bytes.I32BytesZero | uesave/__init__.py:71-72 | the zero length of an empty string is four zero bytes |
| Unicode.Utf8Encode | uesave/__init__.py:76 | `s.encode('utf-8')` is at least as long as s |
| Unicode.Utf8Char | uesave/__init__.py:76 | one character takes 1 to 4 bytes, and 1 exactly when it is ASCII |
| Unicode.Utf8Decode | uesave/__init__.py:64 | `decode('utf-8', errors='ignore')` never yields more characters than bytes |
| Unicode.Utf16Decode | uesave/__init__.py:60 | `decode('utf-16-le', errors='ignore')` yields at most one character per two bytes |
| Unicode.StripTrailingNul | uesave/__init__.py:65 | `rstrip('\x00')` is a prefix without a final NUL, and only NULs were removed |
| Unicode.Utf8EncodeAscii | uesave/__init__.py:76 | ASCII text encodes as one byte per character, its code |
| Unicode.Utf8StepOfChar | uesave/__init__.py:64 | decoding an encoded character gives that character and consumes its bytes |
| Unicode.Utf8DecodeOfEncode | uesave/__init__.py:64-76 | the UTF-8 decoder inverts the encoder on every string |
| Unicode.Utf8EncodeNoZero | uesave/__init__.py:76-77 | text without NUL encodes without a zero byte, so the added NUL is the only one |
| Unicode.StripTrailingNulNoop | uesave/__init__.py:65 | stripping text that does not end in NUL changes nothing |
| Unicode.StripOneNul | uesave/__init__.py:65-77 | the NUL the writer adds is removed again by the reader |
| Unicode.Utf8DecodeTrailingZero | uesave/__init__.py:64-77 | a trailing zero byte decodes to a trailing NUL |
| FString.PayloadBytes | uesave/__init__.py:51-63 | a zero length claims no bytes, a positive one its value, a negative one twice its magnitude |
| FString.ReadString | uesave/__init__.py:47-66 | succeeds exactly when the length prefix is there; advances by 4 plus the claimed payload even past the end; never ends in NUL; a zero length gives "" |
| FString.StringBytes | uesave/__init__.py:69-81 | "" is four zero bytes; otherwise the length `len(s)+1`, the UTF-8 bytes and a NUL; fails exactly when the length does not fit an int32 |
| FString.ReadStringOfEmpty | uesave/__init__.py:51-53 | "" written reads back as "" after 4 bytes |
| FString.ReadStringOfStringBytes | uesave/__init__.py:47-81 | a non-empty ASCII string without NUL reads back unchanged, 4 + length + 1 bytes on |
| FString.AsciiStringBytes | uesave/__init__.py:69-77 | the exact bytes of an ASCII string |
| FString.DecodeAsciiNul | uesave/__init__.py:62-65 | the payload of an ASCII string and its NUL decodes and strips to the string |
| FString.ReadStringPositive | uesave/__init__.py:61-66 | a positive length reads that many bytes as UTF-8 and strips NULs |
| FString.StringBytesLength | uesave/__init__.py:69-81 | a written string takes 4 bytes, or 4 + its UTF-8 length + 1 |
| FString.StringBytesMisframesNonAscii | uesave/__init__.py:75-76 | "é" is written as 7 bytes with length 2, so the reader stops one byte early |
| FString.ReadStringAdvance | uesave.py:36-55 | `read_string` moves 4 bytes for a zero length, 4 + len for a positive one, 4 + 2·(−len) for a negative one |
| FString.ReadStringStripped | uesave.py:53-55 | a string read back is already stripped of NULs |
| Guid.HexByte | uesave/__init__.py:92-96 | two lower-case digits whose values are the high and low nibble |
| Guid.Hex | uesave/__init__.py:92-96 | `bytes.hex()` has two lower-case digits per byte |
| Guid.HexValue | uesave/__init__.py:108-112 | `bytes.fromhex` digit values are below 16 |
| Guid.FromHex | uesave/__init__.py:108-112 | `bytes.fromhex` gives at most one byte per two characters |
| Guid.FromHexOfHex | uesave/__init__.py:92-112 | `bytes.fromhex(b.hex()) == b` |
| Guid.HexConcat | uesave/__init__.py:92-97 | hex of a concatenation is the concatenation of the hexes |
| Guid.Reverse | uesave/__init__.py:92-94 | `[::-1]` reverses positions |
| Guid.ReverseReverse | uesave/__init__.py:92-110 | reversing twice is the identity |
| Guid.Split | uesave/__init__.py:103 | `split('-')` gives at least one part, and no part holds a dash |
| Guid.SplitOfJoin | uesave/__init__.py:97-103 | splitting dash-joined hex texts gives the texts back |
| Guid.JoinOfSplit | uesave/__init__.py:97-103 | joining the parts of a split gives the text back |
| Guid.SplitPrefix | uesave/__init__.py:103 | splitting `w-rest` gives w, then the parts of rest |
| Guid.GuidText | uesave/__init__.py:92-97 | the text of 16 bytes has 36 characters |
| Guid.GroupDigitsHex | uesave/__init__.py:92-96 | each group's digits are the hex of its bytes, reversed for the first three groups |
| Guid.GuidTextGroups | uesave/__init__.py:92-97 | the text is the five hex groups joined by dashes, as `_read_guid` builds it |
| Guid.GuidTextShape | uesave/__init__.py:92-97 | five lower-case hex groups of 8, 4, 4, 4 and 12 digits |
| Guid.SplitGuidText | uesave/__init__.py:97-103 | splitting a GUID text gives its five groups |
| Guid.ReadGuid | uesave/__init__.py:84-98 | always advances 16; "" exactly when fewer than 16 bytes remain, else the text of those bytes |
| Guid.GuidBytes | uesave/__init__.py:101-121 | always 16 bytes; zeros unless the text has five parts |
| Guid.GuidStructText | uesave/__init__.py:648-654 | the Guid-struct formatting succeeds exactly with at least 8 bytes and gives the GUID text for 16 |
| Guid.GuidBytesOfGroups | uesave/__init__.py:107-119 | five well-sized hex parts are written as the reversed first three and the last two |
| Guid.GuidBytesOfBadPart | uesave/__init__.py:113-121 | a part of the wrong length makes `_write_guid` write zeros |
| Guid.GuidBytesOfGuidText | uesave/__init__.py:84-121 | `_write_guid` of the text of 16 bytes gives those bytes |
| Guid.ReadGuidShape | uesave/__init__.py:84-98 | a full read yields a well-formed GUID text |
| Guid.GuidBytesOfReadGuid | uesave/__init__.py:84-121 | reading then writing a GUID reproduces the 16 bytes |
| Guid.GuidBytesOfShortRead | uesave/__init__.py:90-105 | a short read is "", which is written as zeros |
| Decimal.NatToString | uesave/__init__.py:269 | `str(n)` is digits only, without a leading zero |
| Decimal.IntToString | uesave/__init__.py:269 | `str(v)` starts with '-' exactly for negative v |
| Decimal.ParseInt | uesave/__init__.py:273 | `int(s)` succeeds exactly when the text, stripped of Python white space, is an optional sign and ASCII digits with single underscores between them |
| Decimal.ParseSigned | uesave/__init__.py:273 | after stripping, a digit group reads as its value, and with a sign as its negation or itself |
| Decimal.IsDigitGroup | uesave/__init__.py:273 | the digits-and-underscores grammar of `int()` |
| Decimal.DropUnderscores | uesave/__init__.py:273 | the digits of a group, at least one, no more than the group |
| Decimal.AllDigitsGroup | uesave/__init__.py:273 | plain digits are a group with their own value |
| Decimal.ParseIntIgnoresSpace | uesave/__init__.py:273 | white space around the text does not change `int()` |
| Decimal.ParseIntUnderscores | uesave/__init__.py:273 | `int("1_000") == 1000` |
| Decimal.ThousandGroup | uesave/__init__.py:273 | "1_000" is a digit group of value 1000 |
| Decimal.ParseIntDoubleUnderscore | uesave/__init__.py:273 | `int("1__0")` raises `ValueError` |
| Decimal.StripLeftSpaces | uesave/__init__.py:273 | leading white space is exactly what is stripped on the left |
| Decimal.StripRightSpaces | uesave/__init__.py:273 | trailing white space is exactly what is stripped on the right |
| Decimal.StripNoSpace | uesave/__init__.py:273 | text without white space is left alone |
| Decimal.IntToStringNoSpace | uesave/__init__.py:269 | `str(v)` holds no white space |
| Decimal.ParseSignedOfIntToString | uesave/__init__.py:269-273 | the signed digits of `str(v)` read back as v |
| Decimal.IntOfText | uesave/__init__.py:273 | `int(s)` raises `ValueError` exactly when ParseInt fails, and otherwise gives its value |
| Decimal.DigitsValueOfNatToString | uesave/__init__.py:269-273 | the digits of n have value n |
| Decimal.ParseIntOfIntToString | uesave/__init__.py:269-273 | `int(str(v)) == v` for every int |
| Properties.FindClass | uesave/__init__.py:754-757 | the first class with the given name, or none when no class has it |
| Properties.LookupClass | uesave/__init__.py:750-764 | `_TYPE_MAP.get(t)` finds a class named t, or None when no class is named t |
| Properties.ClassIndex | uesave/__init__.py:754-757 | every class has a position in the class list |
| Properties.LookupTypeName | uesave/__init__.py:750-764 | looking up a class's own name finds that class |
| Properties.NamesDiffer | uesave/__init__.py:754-757 | two different classes have different names |
| Properties.FindClassFirst | uesave/__init__.py:754-757 | the search finds the first class with the name |
| Properties.SizeField | uesave/__init__.py:172-174 | `prop.size`: the stored size, except 0 for bools and 4 for floats, whose classes override it at lines 301-303 and 388-390 |
| Properties.IntPropertyOf | uesave/__init__.py:434-438 | the constructor keeps `int_tag & 0xff` and every other field |
| Decode.ReadProperty | uesave/__init__.py:124-144 | success needs the name's length prefix and moves at least 4 bytes |
| Decode.CreateProperty | uesave/__init__.py:759-767 | an unknown type is `ValueError("Unknown property type: …")`; a result has the class and the class name the type named |
| Decode.NestedFromBytes | uesave/__init__.py:216-255 | array and struct results keep name, tag and size |
| Decode.FixedFromBytes | uesave/__init__.py:310-316 | a fixed-layout result is of the class asked for and keeps name, tag and size |
| Decode.ExpectZero | uesave/__init__.py:218-219 | succeeds exactly on a zero byte and moves past it; `IndexError` at the end |
| Decode.ArrayFromBytes | uesave/__init__.py:216-220 | the array keeps its name, tag, size and inner type |
| Decode.ArrayBody | uesave/__init__.py:220-253 | the count read from the file and values of the inner type's kind |
| Decode.ReadStrings | uesave/__init__.py:224-228 | exactly `count` strings, at least 4 bytes each |
| Decode.ReadInts | uesave/__init__.py:229-233 | exactly `count` ints, 4 bytes each; fails exactly when they do not fit |
| Decode.ReadFloats | uesave/__init__.py:244-249 | exactly `count` 4-byte payloads |
| Decode.ReadFields | uesave/__init__.py:660-668 | a size of 0 reads no field |
| Decode.ReadUntilNone | uesave/__init__.py:234-243 | no field when the offset is already at the end |
| Decode.BoolFromBytes | uesave/__init__.py:310-316 | succeeds exactly for size 0 and a zero byte after the flag; true for any non-zero flag; 2 bytes |
| Decode.ByteFromBytes | uesave/__init__.py:337-347 | the enum name, a zero byte, then one byte for size 1 or a value name |
| Decode.DoubleFromBytes | uesave/__init__.py:370-374 | succeeds exactly for size 8 with 8 bytes left, keeping them |
| Decode.FloatFromBytes | uesave/__init__.py:397-401 | succeeds exactly for size 4 with 4 bytes left, keeping them |
| Decode.Int64FromBytes | uesave/__init__.py:420-424 | succeeds exactly for size 8 with 8 bytes left, the int64 read |
| Decode.IntFromBytes | uesave/__init__.py:444-451 | succeeds exactly for size 4 with 5 bytes left: the int32 and the int tag byte |
| Decode.MapFromBytes | uesave/__init__.py:474-487 | two type names, the count and `size - 5` raw bytes |
| Decode.NameFromBytes | uesave/__init__.py:511-516 | a zero byte then a string whose length + 5 is the size |
| Decode.ObjectFromBytes | uesave/__init__.py:536-541 | same layout and size rule as names |
| Decode.StrFromBytes | uesave/__init__.py:561-566 | a zero byte then a string; size is its length + 4 (+1 if non-empty) |
| Decode.TextFromBytes | uesave/__init__.py:713-717 | never fails: `size` bytes, clipped at the end, then one skipped byte |
| Decode.UInt64FromBytes | uesave/__init__.py:737-741 | succeeds exactly for size 8 with 8 bytes left, the uint64 read |
| Decode.StructFromBytes | uesave/__init__.py:604-609 | the struct keeps its name, tag and size |
| Decode.StructBody | uesave/__init__.py:611-670 | other struct types read their fields up to None or `size` bytes |
| Decode.StructBodyQuat | uesave/__init__.py:611-624 | a Quat needs size 16 and gives four floats X, Y, Z, W |
| Decode.StructBodyVector | uesave/__init__.py:625-636 | a Vector needs size 12 and gives three floats X, Y, Z |
| Decode.StructBodyDateTime | uesave/__init__.py:637-644 | a DateTime needs size 8 and gives one int64 `Ticks` |
| Decode.StructBodyGuid | uesave/__init__.py:645-658 | a Guid struct needs size 16 and gives one string `Value` with the GUID text |
| Decode.FloatFields | uesave/__init__.py:619-636 | one float per 4 bytes, named X, Y, Z, W in order, tag 0, size 4 |
| Decode.ReadProperties | uesave/__init__.py:1035-1045 | no property when the offset is at the end; otherwise it ends at or past `end` |
| Decode.ReadPropertyTerminator | uesave/__init__.py:127-128 | the names "None" and "" end a list after only the name |
| Decode.ReadPropertyHeader | uesave/__init__.py:130-144 | any other name is followed by type, size and tag, and the record keeps all four |
| Decode.ReadPropertyUnknownType | uesave/__init__.py:759-764 | an unknown type raises `ValueError` |
| Reader.PrependToSnoc | uesave/__init__.py:1043 | appending to the accumulator is prepending to what is left |
| Reader.PrependToNil | uesave/__init__.py:1036 | an empty accumulator changes nothing |
| Reader.ReadPropertyM | uesave/__init__.py:124-144 | returns exactly `Decode.ReadProperty` |
| Reader.CreatePropertyM | uesave/__init__.py:759-767 | returns exactly `Decode.CreateProperty` |
| Reader.ArrayFromBytesM | uesave/__init__.py:216-255 | returns exactly `Decode.ArrayFromBytes` |
| Reader.ArrayBodyM | uesave/__init__.py:220-253 | returns exactly `Decode.ArrayBody` |
| Reader.ReadStringsM | uesave/__init__.py:224-228 | the `for` loop returns exactly `Decode.ReadStrings` |
| Reader.ReadIntsM | uesave/__init__.py:229-233 | the `for` loop returns exactly `Decode.ReadInts` |
| Reader.ReadFloatsM | uesave/__init__.py:244-249 | the `for` loop returns exactly `Decode.ReadFloats` |
| Reader.ReadFieldsM | uesave/__init__.py:660-668 | the `while` loop returns exactly `Decode.ReadFields` |
| Reader.StructFromBytesM | uesave/__init__.py:604-670 | returns exactly `Decode.StructFromBytes` |
| Reader.StructBodyM | uesave/__init__.py:611-670 | returns exactly `Decode.StructBody` |
| Reader.ReadPropertiesM | uesave/__init__.py:1035-1045 | the `while` loop returns exactly `Decode.ReadProperties` |
| Reader.ReadCustomVersionsM | uesave/__init__.py:836-840 | the `for` loop returns exactly `Header.ReadCustomVersions` |
| Reader.ReadGvasHeaderM | uesave/__init__.py:774-849 | returns exactly `Header.ReadGvasHeader` |
| Encode.PropertyBytes | uesave/__init__.py:147-155 | fails exactly when the name is too long or the class body fails |
| Encode.ClassNameBytes | uesave/__init__.py:149-150 | writing a class name never fails |
| Encode.ByteValueBytes | uesave/__init__.py:349-354 | a one-byte value as `v & 0xFF`; otherwise a string, with `int()` failing on a non-number |
| Encode.StructFieldsBytes | uesave/__init__.py:677-697 | Quat/Vector need 4/3 float fields and give their payloads; an empty struct is empty |
| Encode.PropsBytes | uesave/__init__.py:1049-1050 | succeeds exactly when every property can be written |
| Encode.PropertiesBytes | uesave/__init__.py:1048-1052 | every property, then the "None" string |
| Encode.ArrayValuesBytes | uesave/__init__.py:261-290 | the values written as the inner type asks |
| Encode.ByteArrayBytes | uesave/__init__.py:261-266 | bytes as they are, ints masked, strings through `int()`, properties only when none |
| Encode.StrArrayBytes | uesave/__init__.py:267-270 | the string of each value |
| Encode.IntArrayBytes | uesave/__init__.py:271-274 | the int32 of each value, `int()` of texts first |
| Encode.StructArrayBytes | uesave/__init__.py:275-279 | each element, then "None"; non-properties fail unless there are none |
| Encode.FloatArrayBytes | uesave/__init__.py:280-283 | the payloads one after another |
| Encode.MaskedBytes | uesave/__init__.py:265 | `int(v) & 0xFF` at each position |
| Encode.DecimalTexts | uesave/__init__.py:269 | `str(v)` at each position |
| Encode.IntsOfTexts | uesave/__init__.py:273 | succeeds exactly when every text parses, with the parsed values in order |
| Encode.MapResults | uesave/__init__.py:272-273 | one result per text in order, failing exactly when some conversion fails |
| Encode.StringsBytes | uesave/__init__.py:268-269 | succeeds exactly when every string's length fits |
| Encode.I32sBytes | uesave/__init__.py:272-273 | succeeds exactly when every value is an int32; 4 bytes each |
| Encode.NoneStringBytes | uesave/__init__.py:1052 | "None" is written as length 5, the letters and a NUL |
| Encode.PropertiesBytesEndsWithNone | uesave/__init__.py:1048-1052 | the written list always ends with the "None" string |
| Writer.ByteArray.constructor | uesave/__init__.py:852 | a new buffer is empty |
| Writer.ByteArray.Extend | uesave/__init__.py:28 | appends exactly the given bytes |
| Writer.ByteArray.WriteU32 | uesave/__init__.py:27-28 | appends the 4 masked bytes |
| Writer.ByteArray.WriteU16 | uesave/__init__.py:43-44 | appends the 2 masked bytes |
| Writer.ByteArray.WriteI32 | uesave/__init__.py:35-36 | appends the 4 bytes, or fails with `struct.error` appending nothing |
| Writer.ByteArray.WriteString | uesave/__init__.py:69-81 | appends exactly `StringBytes(s)`, or fails appending nothing |
| Writer.ByteArray.WriteGuid | uesave/__init__.py:101-121 | appends exactly the 16 bytes of `GuidBytes` |
| Writer.ByteArray.WriteProperty | uesave/__init__.py:147-155 | appends exactly `PropertyBytes(p)` or reports its error |
| Writer.ByteArray.WriteBody | uesave/__init__.py:155 | dispatches to the class's writer: the class body or its error |
| Writer.ByteArray.WriteBoolBody | uesave/__init__.py:318-320 | the flag byte and a zero byte |
| Writer.ByteArray.WriteByteBody | uesave/__init__.py:349-354 | a zero byte, then the value |
| Writer.ByteArray.WritePayloadBody | uesave/__init__.py:376-377 | the packed double or float |
| Writer.ByteArray.WriteInt64Body | uesave/__init__.py:426-427 | the int64, or `struct.error` |
| Writer.ByteArray.WriteIntBody | uesave/__init__.py:453-455 | the int32, then the int tag byte |
| Writer.ByteArray.WriteTextBody | uesave/__init__.py:518-520 | a zero byte, then the string (names, objects, strs) |
| Writer.ByteArray.WriteRawTextBody | uesave/__init__.py:722-724 | the raw bytes, then a zero byte |
| Writer.ByteArray.WriteUInt64Body | uesave/__init__.py:746-748 | the uint64, or `struct.error` |
| Writer.ByteArray.WriteByteValue | uesave/__init__.py:350-354 | the value of a byte property, after its zero byte |
| Writer.ByteArray.WriteMapBody | uesave/__init__.py:489-495 | the map body or its error |
| Writer.ByteArray.WriteArrayBody | uesave/__init__.py:257-290 | the inner type, a zero byte, the count as int32, the values |
| Writer.ByteArray.WriteStructBody | uesave/__init__.py:672-697 | the type, the GUID (zeros for none), a zero byte, the fields |
| Writer.ByteArray.WriteStructFields | uesave/__init__.py:677-697 | exactly `StructFieldsBytes` or its error |
| Writer.ByteArray.WriteFloatPayloads | uesave/__init__.py:682-683 | the payloads of the fields in order |
| Writer.ByteArray.WriteProps | uesave/__init__.py:1049-1050 | the loop appends exactly `PropsBytes` or its first error |
| Writer.ByteArray.WriteProperties | uesave/__init__.py:1048-1052 | exactly `PropertiesBytes` |
| Writer.ByteArray.WriteArrayValues | uesave/__init__.py:261-290 | exactly `ArrayValuesBytes` |
| Writer.ByteArray.WriteByteArray | uesave/__init__.py:261-266 | exactly `ByteArrayBytes` |
| Writer.ByteArray.WriteStrArray | uesave/__init__.py:267-270 | exactly `StrArrayBytes` |
| Writer.ByteArray.WriteIntArray | uesave/__init__.py:271-274 | exactly `IntArrayBytes` |
| Writer.ByteArray.WriteStructArray | uesave/__init__.py:275-279 | exactly `StructArrayBytes` |
| Writer.ByteArray.WriteFloatArray | uesave/__init__.py:280-283 | exactly `FloatArrayBytes` |
| Writer.ByteArray.WriteStrings | uesave/__init__.py:268-269 | the loop appends exactly `StringsBytes` |
| Writer.ByteArray.WriteI32s | uesave/__init__.py:272-273 | the loop appends exactly `I32sBytes` |
| Writer.ByteArray.WriteFloats | uesave/__init__.py:281-282 | the loop appends the payloads |
| Writer.ByteArray.WriteFileVersions | uesave/__init__.py:859-865 | exactly `FileVersionBytes` or its error |
| Writer.ByteArray.WriteEngineVersion | uesave/__init__.py:867-873 | exactly `EngineBytes` or its error |
| Writer.ByteArray.WriteCustomVersion | uesave/__init__.py:881-882 | one entry: GUID and version |
| Writer.ByteArray.WriteCustomVersions | uesave/__init__.py:880-882 | the loop appends exactly `CustomVersionsBytes` |
| Writer.ByteArray.WriteGvasHeader | uesave/__init__.py:852-885 | exactly `HeaderBytes` or its first error |
| Writer.PrependBytesAppend | uesave/__init__.py:1049-1050 | writing in two steps is writing the concatenation |
| Writer.PropsBytesStep | uesave/__init__.py:1049-1050 | one turn of the property loop fails the list or extends what was written |
| Writer.PropsBytesEnds | uesave/__init__.py:1049-1050 | the property loop before the first and after the last turn |
| Writer.CustomVersionsBytesStep | uesave/__init__.py:880-882 | one turn of the custom-version loop |
| Writer.CustomVersionsBytesEnds | uesave/__init__.py:880-882 | the custom-version loop before the first and after the last turn |
| Header.AllowedCount | uesave/__init__.py:820-822 | counts the allowed characters, all of them exactly when every one is allowed |
| Header.PlausibleClassName | uesave/__init__.py:817-829 | true exactly for 1..2048 characters of which at least 75% are allowed; the markers change nothing |
| Header.ReadFileVersions | uesave/__init__.py:784-800 | needs 12 bytes; both versions when the peeked engine numbers are at most 50, otherwise the first one alone |
| Header.ReadEngineVersion | uesave/__init__.py:802-814 | three u16, a u32 and the branch string, 14 bytes at least |
| Header.ReadCustomVersion | uesave/__init__.py:838-839 | a GUID and an int32, 20 bytes |
| Header.ReadCustomVersions | uesave/__init__.py:837-840 | exactly `count` entries and 20 bytes each; fails exactly when they do not fit |
| Header.ReadCustomTable | uesave/__init__.py:831-840 | `ValueError` for a count outside 0..10000 or a format outside 0..10 |
| Header.ReadGvasHeader | uesave/__init__.py:774-849 | the magic error; a header with the plausible class name and the table |
| Header.FileVersionBytes | uesave/__init__.py:859-865 | both versions when the UE4 key is present (`AssertionError` without UE5), otherwise the package version (`KeyError` when absent) |
| Header.EngineBytes | uesave/__init__.py:867-873 | fails exactly when the branch is too long; at least 14 bytes |
| Header.CustomVersionBytes | uesave/__init__.py:881-882 | 20 bytes starting with the GUID bytes; fails exactly outside the int32 range |
| Header.CustomVersionsBytes | uesave/__init__.py:880-882 | 20 bytes per entry; fails exactly when a version does not fit |
| Header.HeaderBytes | uesave/__init__.py:852-885 | the header bytes or the first exception the writer raises |
| HeaderRoundTrip.FileVersionsAt | uesave/__init__.py:784-800 | the file-version step once its numbers are known |
| HeaderRoundTrip.DualVersionsRead | uesave/__init__.py:784-796 | written UE4/UE5 versions read back in the dual layout when the engine numbers are at most 50 |
| HeaderRoundTrip.SingleVersionsRead | uesave/__init__.py:797-800 | a package version reads back in the single layout when the peek is implausible |
| HeaderRoundTrip.EngineRoundTrip | uesave/__init__.py:802-814 | the engine version reads back masked to its widths |
| HeaderRoundTrip.CanonicalGuidOfRead | uesave/__init__.py:84-121 | a GUID text that was read is written and read back unchanged |
| HeaderRoundTrip.CustomVersionRead | uesave/__init__.py:838-839 | one entry reads back |
| HeaderRoundTrip.CustomVersionsStep | uesave/__init__.py:837-840 | one turn of the custom-version loop |
| HeaderRoundTrip.CustomVersionsRoundTrip | uesave/__init__.py:836-840 | the reader's loop reads back the writer's loop, 20 bytes an entry |
| HeaderRoundTrip.CustomTableRoundTrip | uesave/__init__.py:831-840 | format, count and entries read back when in range |
| HeaderRoundTrip.HeaderBytesParts | uesave/__init__.py:852-885 | the header bytes in four consecutive parts |
| HeaderRoundTrip.HeaderStartsWithMagic | uesave/__init__.py:854 | the written header starts with "GVAS" |
| HeaderRoundTrip.VersionsRoundTrip | uesave/__init__.py:784-814 | the file versions read back in the layout they were written in |
| HeaderRoundTrip.HeaderRoundTrip | uesave/__init__.py:774-885 | reading a written header gives it back (masked engine numbers, canonical GUID texts) and ends where the bytes end |
| HeaderRoundTrip.HeaderReadAt | uesave/__init__.py:774-849 | the header reads back once each part does |
| Framing.TypeNameAscii | uesave/__init__.py:149-150 | every class name is ASCII and takes 4 + its length + 1 bytes |
| Framing.ReadNameAt | uesave/__init__.py:125 | a written ASCII name reads back 4 + its length + 1 bytes on |
| Framing.ReadU32At | uesave/__init__.py:132-133 | a written u32 reads back masked |
| Framing.ReadHead | uesave/__init__.py:125-133 | a written record head reads back: name, type, size and tag |
| RecordReads.ReadPropertyAfterHead | uesave/__init__.py:135-144 | after the head, `_read_property` returns what the class reader returns |
| RecordReads.CreateFixed | uesave/__init__.py:759-767 | a fixed-layout class is handed to its own `from_bytes` |
| RecordReads.ReadFixedRecord | uesave/__init__.py:124-144 | a fixed-layout record reads back as its class reader reads the body |
| RecordReads.BoolBodyRead | uesave/__init__.py:310-316 | the bool reader on a flag byte and a zero byte |
| RecordReads.IntBodyRead | uesave/__init__.py:444-451 | the int reader on an int32 and a tag byte |
| RecordReads.IntBodyBadSize | uesave/__init__.py:446 | the int reader fails its size assertion for any size but 4 |
| RecordReads.StrBodyRead | uesave/__init__.py:561-566 | the str reader on a zero byte and a matching string |
| RoundTrip.PropertyBytesSplit | uesave/__init__.py:147-155 | a record is its head, then its body |
| RoundTrip.FixedRoundTrip | uesave/__init__.py:124-155 | a written fixed-layout record reads back as its class reader makes of the written body |
| RoundTrip.FixedReadsBack | uesave/__init__.py:124-155 | what the class reader gives is what `_read_property` gives |
| RoundTrip.FixedFailsBack | uesave/__init__.py:124-155 | what the class reader raises is what `_read_property` raises |
| RoundTrip.MaskedFields | uesave/__init__.py:152-153 | masking leaves u32 size and tag unchanged |
| RoundTrip.BoolBodyBack | uesave/__init__.py:310-320 | the bool reader reads the bool writer's body |
| RoundTrip.BoolRoundTrip | uesave/__init__.py:296-320 | a bool property with size 0 reads back unchanged |
| RoundTrip.IntBodyBack | uesave/__init__.py:444-455 | the int reader reads the int writer's body |
| RoundTrip.IntRoundTrip | uesave/__init__.py:433-455 | an int property with size 4 reads back unchanged, int tag included |
| RoundTrip.IntBadSizeBody | uesave/__init__.py:446 | any other size is rejected before the body |
| RoundTrip.IntBadSizeRoundTrip | uesave/__init__.py:444-455 | an int property with size other than 4 is written and fails to read back |
| RoundTrip.StrBodyBack | uesave/__init__.py:561-570 | the str reader reads the str writer's body |
| RoundTrip.StrRoundTrip | uesave/__init__.py:551-570 | an ASCII str property with the asserted size reads back unchanged |
| Legacy.SumSizesConcat | uesave.py:106-107 | the size of children side by side is the sum, failing exactly when one fails |
| Legacy.StructSizeSnoc | uesave.py:426-427 | one more child grows a struct by that child's size |
| Legacy.ArraySizeIsStructSize | uesave.py:106-107 | a struct array reports the size of a struct with the same children |
| Legacy.StrSizeIsEncodedLength | uesave.py:400-401 | a string's size is the length of its FString encoding |
| Legacy.NameSizeIsEncodedLength | uesave.py:352-353 | a name's or object's size is its encoding's length, one more for the empty value |
| Legacy.ReadEntry | uesave.py:891-910 | moves at least 4 bytes; a property has a name other than "None" and moved at least 16 |
| Legacy.CreateProperty | uesave.py:569-575 | `ValueError("Unknown property type: …")` for an unknown type; else the named class, with the name kept |
| Legacy.ArrayFromBytes | uesave.py:127-160 | an array with the name kept, whose inner type is ByteProperty or StructProperty, holding raw bytes exactly for ByteProperty |
| Legacy.ArrayBody | uesave.py:131-158 | byte arrays keep `size` bytes after the count and move `size - 4`; struct arrays run the loop; other types raise `NotImplementedError` |
| Legacy.StructFromBytes | uesave.py:450-507 | a struct with the name kept and the type read first |
| Legacy.StructBody | uesave.py:458-505 | Quat and Vector succeed exactly when the size is 16 or 12 and the bytes are there, and hold the floats of those bytes; other types run the loop |
| Legacy.StructFieldsFromBody | uesave.py:450-507 | a struct's type and fields are the type read first and the body read after the GUID and the skipped byte |
| Legacy.FloatFields | uesave.py:466-483 | one float per 4 bytes, named X, Y, Z, W |
| Legacy.ParseProperties | uesave.py:889-912 | empty at the end offset; 16 bytes at least per property; no property named "None" |
| Legacy.FixedFromBytes | uesave.py:180-185 | a result of the class asked for, with the name kept |
| Legacy.ReadEntryTerminator | uesave.py:892-897 | only "None" ends a list, an empty name does not |
| Legacy.FixedSizeMatchesDeclared | uesave.py:352-364 | the classes that assert a size report that size back |
| Legacy.BoolSizeDiffers | uesave.py:172-185 | a bool asserts a declared size of 0 but reports 1 |
| Legacy.TextSizeMatchesDeclared | uesave.py:519-530 | a text value has the declared size unless the slice runs off the end |
| Legacy.FixedStructSize | uesave.py:426-427 | the float fields of a Quat or Vector body report exactly the declared 16 or 12 bytes |
| Legacy.FieldsStart | uesave.py:451-456 | fields begin after the type, 16 GUID bytes and one byte |
| Legacy.StructLoopAsWrittenSkips | uesave.py:486 | as written, a struct body starting at an offset at or past its size reads no field |
| Legacy.StructLoopIntendedReads | uesave.py:486 | with `start + size`, a non-empty struct body reads its first field, and an empty one none |
| Legacy.StructLoopDiscrepancy | uesave.py:486 | an input on which the two bounds give different fields |
| Legacy.ParsePropertiesInOrder | uesave.py:889-912 | the result is exactly the properties stored one after another before "None" or the end, in file order |
| LegacyReader.ReadEntryM | uesave.py:891-910 | returns exactly `Legacy.ReadEntry` |
| LegacyReader.CreatePropertyM | uesave.py:569-575 | returns exactly `Legacy.CreateProperty` |
| LegacyReader.ArrayFromBytesM | uesave.py:127-160 | returns exactly `Legacy.ArrayFromBytes` |
| LegacyReader.ArrayBodyM | uesave.py:131-158 | returns exactly `Legacy.ArrayBody` |
| LegacyReader.StructFromBytesM | uesave.py:450-507 | returns exactly `Legacy.StructFromBytes` |
| LegacyReader.StructBodyM | uesave.py:458-505 | returns exactly `Legacy.StructBody` |
| LegacyReader.ParsePropertiesM | uesave.py:889-912 | the `while` loop returns exactly `Legacy.ParseProperties` |
| LegacyHeader.ReadFriendlyName | uesave.py:674-680 | a friendly name exactly in the layouts that have one |
| LegacyHeader.ReadEntries | uesave.py:652-656 | exactly `count` entries, 20 bytes at least each, names exactly in B and D |
| LegacyHeader.ReadCount | uesave.py:647-651 | `ValueError` for a count outside 0..10000 or, in A and B, a format outside 0..10 |
| LegacyHeader.Attempt | uesave.py:645-730 | one attempt at `base`: the table and class name read |
| LegacyHeader.FirstAccepted | uesave.py:645-730 | the first of A, B, C, D that is accepted, or none |
| LegacyHeader.Base | uesave.py:595-642 | the custom versions begin at least 20 bytes on |
| LegacyHeader.ParseGvasHeader | uesave.py:585-739 | the magic error; only that or `struct.error`; a class name exactly when the offset moved past `base`; dual versions exactly when plausible |
| LegacyHeader.ParseGvasHeaderLayout | uesave.py:645-739 | the first accepted layout sets the table, the class name, the custom format and the offset after it; none accepted falls back to the bare class name, read right after the header fields |
| LegacyHeader.ParseGvasHeaderNothingPlausible | uesave.py:732-739 | nothing plausible leaves the offset at `base` with no class name or table |
| LegacyHeader.ReadEntriesM | uesave.py:652-656 | the `for` loop returns exactly `ReadEntries` |
| LegacyHeader.AttemptM | uesave.py:645-665 | returns exactly `Attempt` |
| LegacyHeader.TryLayout | uesave.py:645-665 | sets the header and offset exactly when the attempt is accepted, else changes nothing |
| LegacyHeader.ParseGvasHeaderM | uesave.py:585-739 | with its `parsed_ok` flag, returns exactly `ParseGvasHeader` |
| WebApp.Keep | uesave/webapp.py:63-66 | keeps only allowed characters, and keeps an all-allowed name whole |
| WebApp.KeepConcat | uesave/webapp.py:63-66 | filtering a concatenation filters each part in order |
| WebApp.SanitizeFilename | uesave/webapp.py:63-66 | 1..100 allowed characters: "upload.sav" when none is kept, else the last 100 kept |
| WebApp.SanitizeIdempotent | uesave/webapp.py:63-66 | sanitizing twice is sanitizing once |
| WebApp.LowerChar | uesave/webapp.py:197 | upper-case ASCII letters lowered, others unchanged |
| WebApp.Lower | uesave/webapp.py:197 | `lower()` character by character |
| WebApp.CheckUpload | uesave/webapp.py:195-201 | rejected with 400 exactly when the name is missing, empty or does not end in ".sav" in any case |
| WebApp.SameEndingSameSav | uesave/webapp.py:197 | the ".sav" test depends only on the last four characters |
| WebApp.SavEndingKept | uesave/webapp.py:63-66 | the characters of a ".sav" ending are all kept |
| WebApp.SanitizeKeepsSavSuffix | uesave/webapp.py:197-201 | an accepted name keeps its ".sav" ending once sanitized |
| WebApp.StoredNameIsSav | uesave/webapp.py:195-201 | an accepted upload is stored under a name ending in ".sav" |
| WebApp.HexSpaced | uesave/webapp.py:90 | `hex(" ")`: 3n−1 characters starting with the first byte's digits |
| WebApp.FromHexOfHexSpaced | uesave/webapp.py:90 | `bytes.fromhex` reads the spaced hex back |
| WebApp.BytePreviewShape | uesave/webapp.py:89-92 | the count, the first 32 bytes exactly, and more text exactly when over 32 |
| WebApp.Truncate | uesave/webapp.py:139-140 | at most 201 characters; whole up to 200, else the first 200 and "…" |
| Decimal.StripLeft | uesave/webapp.py:117 | a suffix that starts without white space; only white space removed |
| Decimal.StripRight | uesave/webapp.py:117 | a prefix that ends without white space; only white space removed |
| Decimal.Strip | uesave/webapp.py:117 | no white space at either end; empty exactly for all-white text |
| Decimal.StripAllSpace | uesave/webapp.py:117 | all-white text strips to nothing, and only such text |
| WebApp.ArrayBytes | uesave/webapp.py:83-88 | the bytes, one per value; empty for no values |
| WebApp.FormatPropValue | uesave/webapp.py:69-148 | None exactly for structs and struct arrays; errors only for byte arrays; float text only for floats and doubles |
| WebApp.FormatByteArray | uesave/webapp.py:81-92 | "0 bytes" exactly for an empty byte array |
| WebApp.TextPreview | uesave/webapp.py:113-128 | a text with printable content is quoted; otherwise the byte count and hex in angle brackets |
| WebApp.FormatString | uesave/webapp.py:132-141 | strings quoted, whole up to 200 characters, else 200 and "…" |
| WebApp.CreateNode | uesave/webapp.py:151-187 | name and class kept; `meta` and the children are those of `Expand`; children exactly when there are some, then no value; without children the value preview |
| WebApp.Expand | uesave/webapp.py:157-175 | per class the `meta` text ("N field(s)", "N bytes", "N struct(s)", "Array<T> x N", or empty) and the children: the nodes of the fields or elements, or none |
| WebApp.ElementNodes | uesave/webapp.py:164-172 | one node per element: a leaf named by the Python class of a plain value, the property's node for a property |
| WebApp.StructNode | uesave/webapp.py:157-159 | a struct's node says "N field(s)" and child i is the node of field i; no fields gives no children and no value |
| WebApp.StructArrayNode | uesave/webapp.py:170-172 | a struct array's node says "N struct(s)" and child i is the node of element i |
| WebApp.ByteArrayNode | uesave/webapp.py:161-163 | a byte array's node says "N bytes", has no children and shows the byte preview |
| WebApp.PlainArrayNode | uesave/webapp.py:164-169 | a string, name or int array's node says "Array<T> x N" and has one leaf per value |
| WebApp.FormatMap | uesave/webapp.py:105-111 | a map shows "Map<K, V> raw N byte(s)" and its node has no children |
| WebApp.FormatArraySummary | uesave/webapp.py:96-102 | any other array shows "Array<T> with N item(s)" |
| WebApp.Nodes | uesave/webapp.py:159 | one node per property, in order, each the property's own node |

## Left out

- Decompression (`decompress_payload` and the `_try_*` helpers), file I/O (`read_savefile`, `write_savefile`, `load_savefile`, the GVAS search in the first 256 bytes) and the command-line front end are not modelled. They are I/O and calls into zlib, lz4 and zstd.
- In the web app, the upload's file writing, the unique name built from the clock and a random UUID, the cleaner thread and the HTTP routing are not modelled. They are I/O, time, randomness and concurrency. Only the name checks and the sanitizing are modelled.
- Float and double values are not interpreted. They stay as the 4 or 8 bytes `struct` packs.
  - `str()` of a float in `_format_prop_value` is a `FloatShown` preview holding those bytes.
  - `int(x)` of a float element in a byte array is the error `Unconverted`.
- Python's `isalnum` and `lower` are modelled on ASCII only (`WebApp.IsAlnum`, `WebApp.LowerChar`). Python also keeps non-ASCII letters and digits in a file name, and lowers non-ASCII letters.
- The UTF-16 branch of `_write_string` raises `UnicodeEncodeError`, and a Dafny string of scalar values never does. Only string lengths are bounded.
- FString.StringBytes: the writer puts `len(s) + 1` as the length, which counts characters, not bytes. Non-ASCII text is therefore misframed (FString.StringBytesMisframesNonAscii). The record round trips are stated for ASCII text only.
- RoundTrip: whole-record round trips are proved for the bool, int and str classes and for the header.
  - For the other classes the model proves each reader and writer against its layout, but not the composition.
  - Several of those readers and writers disagree in the source: `ByteProperty.to_bytes` omits the enum-name string; the DateTime and Guid structs are read specially but written generically; the byte-array reader keeps `prop_size` bytes; the array count is read as u32 and written as i32.
- Decode.ArrayBody: the fallback for an unknown inner type (raw bytes) is modelled.
- Legacy.ArrayBody requires an offset of at least 4, the least an offset just past the u32 count can be. Python would compute a negative offset for smaller ones, which cannot arise.
- Decimal.ParseInt: only ASCII digits are read. Python's `int()` also accepts any Unicode decimal digit (`int("٣") == 3`), which the model rejects with `ValueError`.
- Encode.StrArrayBytes: `str(v)` of a property element (its `__str__` text) and of a float element are not computed. A non-empty list of either is the error `Unconverted`, where Python writes that text.
- Encode.IntArrayBytes: `int(v)` of a float element, which truncates the float in Python, is not computed. A non-empty float list is the error `Unconverted`.
- Encode.FloatArrayBytes: `float(v)` of an int, a numeric string or a byte, which Python packs as a 4-byte float, is not computed. A non-empty list of such values is the error `Unconverted`.
- WebApp.FormatPropValue: in the byte-array path, a string element that `int()` rejects is `ValueError("invalid literal for int() with base 10: 's'")` with the text `s` itself between the quotes, where Python puts `repr(s)`; the two differ for text holding quotes, backslashes or unprintable characters.
- WebApp.CreateNode: the node of a plain element (string, int, float) is a leaf with an empty name and no value, which is what `getattr`/`AttributeError` give.
- WebApp.SanitizeFilename does not model non-ASCII alphanumerics, for the reason given above.
- The parse-error response of `api_upload` (`Parse error (type): message`) is not modelled, because it wraps the whole file read.

## Findings

| source | as written | input that shows it | evidently intended | confidence | as-written member | corrected member |
|---|---|---|---|---|---|---|
| uesave.py:136, uesave.py:486 | the struct and struct-array loops run `while offset < prop_size`, comparing an absolute offset with a byte count | any struct whose fields begin at an absolute offset at or past its declared size and that has a first field, e.g. a struct of size 8 whose fields begin at offset 40 | `while offset < start + prop_size`, as uesave/__init__.py:236 and 661 do | not executed | Legacy.StructLoopAsWrittenSkips, Legacy.StructLoopDiscrepancy | Legacy.StructLoopIntendedReads |
