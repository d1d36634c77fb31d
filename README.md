# replitdb typed-value layer, modelled in Dafny

`ext/replitdb.js` stores typed values in Replit's key-value database.
The database itself keeps only flat text: each key maps to one text value.
On top of that it builds a tree of "chain" cursors.

- **Paths.** A cursor at path `c` names its child `index` as `c:escape(index)`. `escape` turns every `:` into `$FWSLH`. `get("")` uses the sentinel `$EMPTY`.
- **set.** `set(name, v)` writes the value at node `nc = c:escape(name)` through a per-type codec (String, Number, Boolean, Array, Object). It then writes the type tag under `nc::type`.
  - Scalars are stored as the node's own text.
  - Arrays store a typed `length` child and one typed child per index.
  - Objects store a typed `keys` child holding an array of the key names, and one typed child per key.
- **finish.** `finish()` reads the tag back and decodes. A missing tag means null.
- **delete.** `delete(name)` removes every key under `nc:`, and `nc` itself when it reads back non-empty.
- **reset.** The root cursor's `reset()` deletes every key.
- **call.** A cursor can also be called with a textual query such as `GET a.b`, `SET x 5` or `DELETE "some name"`.
  - String arguments are trimmed.
  - Double-quoted phrases are kept together by swapping their spaces for a placeholder.
  - The result is split on whitespace.
  - The second word is split into path segments.

The model has these modules:

| Module | What it models |
|---|---|
| `KvStore` | The HTTP client as a class over a `map<string,string>`. |
| `Paths` | Escaping and key layout. |
| `Values` | JavaScript values and their text forms. |
| `Codec` | The codecs as functions from one store state to the next (`Encode`, `Put`) and from a store state to a result (`Decode`, `Get`). Their properties are proved in `Frame`, `RoundTrip`, `Removal` and `Quirks`. |
| `Cursor` | The cursor operations as methods that make one store call at a time. Each is proved to end in the state, or with the answer, that `Codec` defines. |
| `Tokens` | The query tokenizer, written as the source writes it. |
| `Lexer` | A quote-aware reference lexer, with the proof that the tokenizer agrees with it. |
| `Query` | Path navigation, and `call` as a method proved against `Plan`. |

Two details of the code decide which nodes a query reaches.

- **Path splitting.** The path word is split with the regular expression `/./g`, not on dots. Without the `u` flag, `.` matches every UTF-16 code unit except a line break. So a one-line path word of n code units gives n+1 empty segments, whatever its text; a character outside the Basic Multilingual Plane counts as two code units. On the cursor at `c`, every `GET` therefore reads the node `c` followed by `:$EMPTY` repeated n+1 times. Every `SET`/`DELETE` acts on the empty name under `c` followed by `:$EMPTY` repeated n times. `Query.GetPath`, `Query.ChangePath` and their neighbours state this.
- **The empty name.** `set("")` writes at `c:`, but `get("")` reads from `c:$EMPTY`. So a value set through a query is not found again (`Query.QuerySetIsLost`). A delete through a query drops the parent's own type tag instead (`Query.QueryDeleteDropsParent`).

## Model

| member | source | states |
|---|---|---|
| KvStore.Lookup | ext/replitdb.js:21-27 | reading a key gives its stored text, and the empty text when the key is absent |
| KvStore.KeysWithPrefix | ext/replitdb.js:57-68 | the listed keys are exactly the stored keys that start with the prefix |
| KvStore.Client.Get | ext/replitdb.js:21-27 | returns the stored text of the key, or "" when it is absent; the store is unchanged |
| KvStore.Client.Set | ext/replitdb.js:34-42 | the key now maps to the text; every other key is unchanged |
| KvStore.Client.Delete | ext/replitdb.js:48-51 | the key is removed; every other key is unchanged |
| KvStore.Client.List | ext/replitdb.js:57-68 | returns each stored key with the prefix exactly once, and no other key |
| Paths.Escape | ext/replitdb.js:215-217 | the escaped name holds no ':' delimiter, is no shorter, and is empty exactly when the name is |
| Paths.EscapeKeepsColonFree | ext/replitdb.js:215-217 | a name without ':' is left as it is |
| Paths.EscapeMarksColons | ext/replitdb.js:215-217 | a name with ':' escapes to a text containing '$' |
| Paths.EscapeOfDollarFree | ext/replitdb.js:215-217 | an escaped text without '$' came from exactly that name |
| Paths.EscapeNotInjective | ext/replitdb.js:215-217 | "a:b" and "a$FWSLHb" escape to the same segment, so two different names share one node |
| Paths.Segment | ext/replitdb.js:219-223 | the segment `get` uses is non-empty and free of ':'; it is `$EMPTY` for the empty index and the escaped index otherwise |
| Paths.ChildIsNodeKey | ext/replitdb.js:219-226 | the node `get(name)` reads is the node `set(name)` writes exactly when the name is non-empty |
| Paths.FirstSegmentOf | ext/replitdb.js:223 | the first segment of a key built as segment + ':' + rest is that segment |
| Paths.ChildSubtreeShape | ext/replitdb.js:223 | a key in a child's subtree starts with the parent path plus ':' and has the child's segment next |
| Paths.ChildSubtreeInside | ext/replitdb.js:223 | a child's subtree lies inside its parent's subtree |
| Paths.SiblingSubtreesDisjoint | ext/replitdb.js:215-223 | no key lies in the subtrees of two different sibling segments |
| Paths.OwnKeysOutsideChildren | ext/replitdb.js:226-240 | a node's own key and its type key lie outside every child's subtree |
| Paths.TypeKeyInSubtree | ext/replitdb.js:240 | the type key `nc::type` lies in the subtree of `nc` and starts with `nc:` |
| Values.TagName | ext/replitdb.js:227 | every non-null value has one of the five constructor names as its non-empty type tag |
| Values.KeysArray | ext/replitdb.js:196-197 | the key-name array has one string per field, in field order |
| Values.Assign | ext/replitdb.js:190 | assigning an existing key keeps the number of fields; a new key is appended at the end |
| Values.NatToStringRoundTrip | ext/replitdb.js:148-151 | the digits of a natural number read back as that number |
| Values.IntToStringRoundTrip | ext/replitdb.js:144-153 | parsing the text a number is stored as gives back the number |
| Values.IntToStringInjective | ext/replitdb.js:151 | different numbers are stored as different texts |
| Codec.IndexIsNotSelf | ext/replitdb.js:178-179 | no array index is written through the setter's `self` branch |
| Frame.NodeKeyInside | ext/replitdb.js:226-235 | a key in a typed child's subtree is in the node's subtree |
| Frame.RawKeyInside | ext/replitdb.js:237 | a raw child key lies in the node's subtree |
| Frame.EncodeKeeps | ext/replitdb.js:225-241 | encoding a value at a node leaves every key outside the node's subtree unchanged |
| Frame.PutKeeps | ext/replitdb.js:229-238 | one setter call leaves every key outside the node's subtree unchanged |
| Frame.ElemsKeep | ext/replitdb.js:178-180 | writing array elements leaves keys outside the node's subtree unchanged |
| Frame.FieldsKeep | ext/replitdb.js:199-201 | writing object fields leaves keys outside the node's subtree unchanged |
| Frame.EncodeFrame | ext/replitdb.js:225-241 | `set` changes nothing outside `nc` and the keys below it |
| Frame.LaterElemsKeep | ext/replitdb.js:178-180 | writing later elements leaves a key outside their subtrees as it was |
| Frame.LaterFieldsKeep | ext/replitdb.js:199-201 | writing later fields leaves a key outside their subtrees as it was |
| Frame.AgreeOnChild | ext/replitdb.js:223 | two stores that agree on a node's subtree agree on each child's subtree |
| Frame.DecodeLocal | ext/replitdb.js:252-268 | what `finish` returns depends only on the keys in the node's subtree |
| Frame.GetLocal | ext/replitdb.js:258-267 | the getter's answer depends only on the keys in the node's subtree |
| Frame.ElemsLocal | ext/replitdb.js:169-171 | reading array elements depends only on the keys in the node's subtree |
| Frame.FieldsLocal | ext/replitdb.js:189-191 | the key loop answers alike in two stores whose reads of every named, non-null key agree (the subtree result follows in DecodeLocal) |
| Frame.FieldsAlike | ext/replitdb.js:189-191 | one more pass of the key loop answers alike in two stores when the passes before it and its field read do |
| RoundTrip.WellFormedIsStorable | ext/replitdb.js:227-229 | a well-formed value contains no null, so `set` accepts it |
| RoundTrip.TypeKeyIsNotNodeKey | ext/replitdb.js:232-240 | the type tag never overwrites the node's own text |
| RoundTrip.IndexEscape | ext/replitdb.js:178-179 | an index text passes `escape` unchanged and is neither empty nor `self` |
| RoundTrip.IndexSubtreesDisjoint | ext/replitdb.js:178-180 | different array indices occupy disjoint subtrees |
| RoundTrip.LengthOutsideIndices | ext/replitdb.js:176-179 | the `length` child is outside every index child's subtree |
| RoundTrip.LengthRawIsTyped | ext/replitdb.js:166-176 | the raw key the decoder reads for `length` is the node key the encoder writes it to |
| RoundTrip.ScalarLayout | ext/replitdb.js:134-163 | a string, number or boolean is stored as its text (`1`/`0` for booleans) at the node, with its constructor name as tag |
| RoundTrip.BooleanDecode | ext/replitdb.js:154-159 | a boolean node decodes to true exactly when its text is `1` |
| RoundTrip.ScalarRoundTrip | ext/replitdb.js:134-163 | a scalar written at a node decodes back to itself |
| RoundTrip.EncodeDecode | ext/replitdb.js:133-204 | every well-formed value written at a node decodes back to itself |
| RoundTrip.ArrayRoundTrip | ext/replitdb.js:164-182 | an array of well-formed values decodes back to the same array |
| RoundTrip.ObjectRoundTrip | ext/replitdb.js:184-203 | an object with distinct, non-reserved keys decodes back to the same object, fields in order |
| RoundTrip.FieldNodes | ext/replitdb.js:199-201 | after encoding an object, each field's child decodes to that field's value |
| RoundTrip.FieldAgree | ext/replitdb.js:197-201 | writing the later fields and the tag leaves field j's subtree as its own write left it |
| RoundTrip.FieldsDecodeExtend | ext/replitdb.js:189-191 | decoding one more field node extends the prefix of fields that decode |
| RoundTrip.DecodeArrayOf | ext/replitdb.js:165-174 | an array-tagged node whose length and index children read back decodes to that array |
| RoundTrip.DecodeArrayFrom | ext/replitdb.js:165-174 | an array-tagged node with the right length and decoded elements decodes to the array |
| RoundTrip.DecodeArrayBody | ext/replitdb.js:165-174 | the array decoder returns the elements read under its length |
| RoundTrip.DecodeElemsOf | ext/replitdb.js:169-171 | reading the first j indices gives the first j elements |
| RoundTrip.DecodeObjectOf | ext/replitdb.js:185-194 | an object-tagged node whose keys child and field children read back decodes to that object |
| RoundTrip.DecodeObjectFrom | ext/replitdb.js:185-194 | an object-tagged node with the right keys and decoded fields decodes to the object |
| RoundTrip.DecodeObjectBody | ext/replitdb.js:185-194 | the object decoder returns the fields read for its key list |
| RoundTrip.DecodeFieldsOf | ext/replitdb.js:189-191 | reading the first j keys gives the first j fields, in order |
| RoundTrip.DecodeFieldStep | ext/replitdb.js:189-191 | reading one new key appends its field to the fields read so far |
| RoundTrip.GetChild | ext/replitdb.js:258-265 | a typed read of a non-empty name other than "self" decodes the child node at that name |
| RoundTrip.DecodeElemStep | ext/replitdb.js:169-171 | reading one more element appends it to the elements read so far |
| RoundTrip.ArrayShape | ext/replitdb.js:175-181 | array encode writes the length, then the elements, then the tag |
| RoundTrip.ObjectShape | ext/replitdb.js:195-202 | object encode writes the key list, then the fields, then the tag |
| RoundTrip.ElemsAgreeOnChild | ext/replitdb.js:178-180 | writing the other elements leaves a child's subtree as it was |
| RoundTrip.FieldsAgreeOnChild | ext/replitdb.js:199-201 | writing the other fields leaves a child's subtree as it was |
| RoundTrip.ArrayLength | ext/replitdb.js:166-176 | the stored array holds its length as a number child that decodes to the length |
| RoundTrip.ElemNode | ext/replitdb.js:169-179 | each index child of a stored array decodes to that element |
| RoundTrip.ElemWrite | ext/replitdb.js:179 | writing element j is encoding it at the child named j |
| RoundTrip.FieldWrite | ext/replitdb.js:197-201 | writing field j is encoding its value at the child named by its key |
| RoundTrip.KeysNameFree | ext/replitdb.js:196-197 | no field of a well-formed object lands on the `keys` child |
| RoundTrip.KeysNode | ext/replitdb.js:186-197 | the `keys` child of a stored object decodes to its key-name array |
| RoundTrip.KeysChild | ext/replitdb.js:197 | the key list written alone decodes to itself |
| RoundTrip.PutIsEncode | ext/replitdb.js:234-235 | a typed setter call is `set` on the child |
| RoundTrip.KeysAgree | ext/replitdb.js:197-201 | writing the fields leaves the `keys` child's subtree as the key list left it |
| RoundTrip.LengthAgree | ext/replitdb.js:175-180 | writing the elements and the tag leaves the `length` child's subtree as its own write left it |
| RoundTrip.IndexIsNotLength | ext/replitdb.js:175-180 | no element index is written under the name `length` |
| RoundTrip.FieldNode | ext/replitdb.js:189-200 | each field child of a stored object decodes to that field's value |
| RoundTrip.FreshKey | ext/replitdb.js:189-190 | with distinct keys, each key is new when it is reached |
| RoundTrip.SetThenGet | ext/replitdb.js:219-268 | `set(name, v)` then `get(name).finish()` gives `v` back for every non-empty name and well-formed `v` |
| Removal.DeleteFrame | ext/replitdb.js:242-251 | delete changes no key outside the node's subtree |
| Removal.DeleteClears | ext/replitdb.js:242-251 | after delete, no key below `nc:` remains, and `nc` itself remains only if it held "" |
| Removal.DeleteThenGet | ext/replitdb.js:242-268 | after `delete(name)` with a non-empty name, `get(name).finish()` is null |
| Removal.DeleteIdempotent | ext/replitdb.js:242-251 | deleting twice is deleting once |
| Removal.DeleteKeepsSibling | ext/replitdb.js:242-251 | deleting one name leaves every sibling with a different escaped name decoding as before |
| Removal.SetKeepsSibling | ext/replitdb.js:225-241 | setting one name leaves every sibling with a different escaped name decoding as before |
| Quirks.EmptySentinelShape | ext/replitdb.js:220-223 | every key under `c:$EMPTY` has '$' right after `c:` |
| Quirks.EmptyNameSetIsLost | ext/replitdb.js:219-241 | after `set("", v)`, `get("").finish()` is null when nothing was at `c:$EMPTY` before |
| Quirks.EmptyNameDeleteDropsParentTag | ext/replitdb.js:242-255 | `delete("")` removes the parent's type tag, so the parent then reads as null |
| Quirks.EmptyNameDeleteMissesNode | ext/replitdb.js:219-251 | `delete("")` leaves what `get("")` reads unchanged |
| Quirks.SingleFieldShape | ext/replitdb.js:195-202 | a one-field object is stored as its key list, its field and its tag |
| Quirks.OwnWritesKeepChild | ext/replitdb.js:232-240 | writing a node's text or tag does not change how a named child decodes |
| Quirks.SelfFieldReadsText | ext/replitdb.js:229-233 | an object field named `self` holding a number reads back as the number's text |
| Quirks.SelfFieldShape | ext/replitdb.js:229-233 | a `self` field is written to the object's own key |
| Quirks.SelfKeysChild | ext/replitdb.js:197 | the key list `["self"]` reads back as itself |
| Quirks.DecodeSelfObject | ext/replitdb.js:185-194 | an object whose key list is `["self"]` decodes its one field from the node's own text |
| Quirks.KeysFieldHidesFields | ext/replitdb.js:186-200 | an object whose field `keys` holds "" overwrites its key list and reads back with no fields |
| Quirks.DecodeTextKeys | ext/replitdb.js:186-189 | a key list read back as the empty text yields an object with no fields |
| Cursor.Set | ext/replitdb.js:225-241 | the store after `set` is exactly the function `Encode` of the old store |
| Cursor.EncodeArray | ext/replitdb.js:175-181 | writes the length child, then each index child, in order |
| Cursor.EncodeObject | ext/replitdb.js:195-202 | writes the key list, then each field child, in order |
| Cursor.Setter | ext/replitdb.js:229-238 | the setter writes `self` to the node, raw names to `nc:thing`, typed names through `set` |
| Cursor.Finish | ext/replitdb.js:252-268 | returns exactly what `Decode` specifies for the path, including the error for an unknown tag |
| Cursor.Getter | ext/replitdb.js:258-267 | the getter reads the node's text for `self`, a raw key, or a typed child's `finish` |
| Cursor.FinishArray | ext/replitdb.js:165-174 | reads the length and that many elements, stopping at the first failing element |
| Cursor.FinishObject | ext/replitdb.js:185-194 | reads the key list and each key's child, stopping at the first failure |
| Cursor.ElemsErrorSticks | ext/replitdb.js:169-171 | once an element read fails, reading more elements returns that same failure |
| Cursor.ElemsErrorStep | ext/replitdb.js:169-171 | a failed element read is kept by the next step |
| Cursor.FieldsErrorSticks | ext/replitdb.js:189-191 | once a field read fails, reading more keys returns that same failure |
| Cursor.FieldsErrorStep | ext/replitdb.js:189-191 | a failed field read is kept by the next step |
| Cursor.Delete | ext/replitdb.js:242-251 | the store after `delete` is the old store minus the marked keys |
| Cursor.Reset | ext/replitdb.js:325-328 | the store is empty afterwards |
| Tokens.TrimStartShape | ext/replitdb.js:275 | leading trim removes only whitespace, all of it, and keeps the rest as a suffix |
| Tokens.TrimEndShape | ext/replitdb.js:275 | trailing trim removes only whitespace, all of it, and keeps the rest as a prefix |
| Tokens.TrimShape | ext/replitdb.js:275 | the trimmed text is a slice of the argument with only whitespace cut from both ends, and does not start or end with whitespace |
| Tokens.Closing | ext/replitdb.js:275 | a closing position found is a '"' inside the text |
| Tokens.ClosingShape | ext/replitdb.js:275 | the span closes at the first '"' when no line break comes before it; it stays open only when every '"' has a line break before it |
| Tokens.SpacesTo | ext/replitdb.js:276 | replacing spaces with the placeholder grows the text by the placeholder's extra length per space |
| Tokens.Lead | ext/replitdb.js:277 | gluing text to the first piece keeps the rest of the pieces |
| Tokens.LeadLead | ext/replitdb.js:277 | gluing b then a onto the first piece is gluing a followed by b |
| Tokens.SplitPieces | ext/replitdb.js:277 | splitting on whitespace gives whitespace-free pieces that join to the argument without its whitespace |
| Tokens.ConcatCons | ext/replitdb.js:277 | joining pieces is the first piece followed by the rest joined |
| Tokens.Placeholder | ext/replitdb.js:271 | the placeholder is non-empty and starts with '$' |
| Tokens.Restore | ext/replitdb.js:277 | each piece has the placeholder turned back into a space |
| Tokens.ConcatLead | ext/replitdb.js:277 | text glued to the first piece comes first in the joined pieces |
| Tokens.ConcatEmptyFront | ext/replitdb.js:277 | an empty piece in front adds nothing to the joined pieces |
| Tokens.UnwordsShape | ext/replitdb.js:273-277 | plain words joined by spaces give a non-empty, quote-free text without surrounding whitespace |
| Tokens.TrimDrops | ext/replitdb.js:275 | trim adds no character that the argument lacks |
| Tokens.TrimKeeps | ext/replitdb.js:275 | text without surrounding whitespace is left as it is by trim |
| Tokens.ProtectQuoteFree | ext/replitdb.js:275-276 | a quote-free text is left as it is by the quote replacement |
| Tokens.ReplaceAllAbsent | ext/replitdb.js:277 | replacement leaves a text without the pattern's first character unchanged |
| Tokens.SplitSpaceFree | ext/replitdb.js:277 | a whitespace-free text splits into itself |
| Tokens.SplitUnwords | ext/replitdb.js:277 | plain words joined by single spaces split back into those words |
| Tokens.SplitWord | ext/replitdb.js:277 | a whitespace-free prefix is glued onto the first piece |
| Tokens.PlainWords | ext/replitdb.js:273-277 | plain words joined by spaces tokenize back to the same words |
| Tokens.RestoreAbsent | ext/replitdb.js:277 | plain words have nothing to restore |
| Lexer.Mark | ext/replitdb.js:276 | a quoted phrase keeps each character, its spaces marked as kept |
| Lexer.Cut | ext/replitdb.js:277 | the reference split yields at least one piece |
| Lexer.ShowAll | ext/replitdb.js:277 | each reference piece is shown with kept spaces as spaces |
| Lexer.SpellAppend | ext/replitdb.js:276 | spelling a concatenation is the concatenation of the spellings |
| Lexer.SpellMark | ext/replitdb.js:276 | a marked phrase is spelled as the phrase with spaces replaced by the placeholder |
| Lexer.ProtectIsSpelled | ext/replitdb.js:275-276 | the quote replacement equals spelling the reference lexer's glyphs |
| Lexer.QuotedIsSpelled | ext/replitdb.js:275-276 | the same for text that starts with a closed quote |
| Lexer.ProtectQuoted | ext/replitdb.js:275-276 | a closed quote becomes its inner text with spaces replaced, then the rest |
| Lexer.ScanQuoted | ext/replitdb.js:275-276 | the reference lexer marks a closed quote's inner text, then scans the rest |
| Lexer.PlainIsSpelled | ext/replitdb.js:275-276 | the same for text that does not start with a closed quote |
| Lexer.SplitIsCut | ext/replitdb.js:277 | splitting the spelled text on whitespace equals cutting the glyphs at whitespace |
| Lexer.SpellHead | ext/replitdb.js:277 | a spelled text starts with whitespace exactly when its first glyph breaks |
| Lexer.RestoreIsShow | ext/replitdb.js:277 | restoring the placeholder in a spelled piece shows its kept spaces as spaces |
| Lexer.ScanDollarFree | ext/replitdb.js:275-276 | an argument without '$' scans to glyphs without '$' |
| Lexer.SliceDollarFree | ext/replitdb.js:275-276 | every slice of a text without '$' is without '$' |
| Lexer.MarkDollarFree | ext/replitdb.js:275-276 | marking a text without '$' gives glyphs without '$' |
| Lexer.DollarFreeAppend | ext/replitdb.js:275-276 | joining two glyph runs without '$' gives a run without '$' |
| Lexer.CutDollarFree | ext/replitdb.js:277 | cutting keeps pieces free of '$' |
| Lexer.RestoreAllIsShow | ext/replitdb.js:277 | restoring all pieces equals showing all reference pieces |
| Lexer.PlaceholderSpaceFree | ext/replitdb.js:271 | the placeholder holds no whitespace when its number text holds none |
| Lexer.TokenizeIsLex | ext/replitdb.js:271-277 | for arguments without '$', the placeholder tokenizer equals the quote-aware reference lexer |
| Lexer.Plain | ext/replitdb.js:275 | characters outside quotes are kept as they are |
| Lexer.ScanQuoteFree | ext/replitdb.js:275 | a quote-free text scans to its plain characters |
| Lexer.CutUnbroken | ext/replitdb.js:277 | glyphs without whitespace form one piece |
| Lexer.ShowMark | ext/replitdb.js:276-277 | a marked phrase shows as itself |
| Lexer.ShowPlain | ext/replitdb.js:277 | plain characters show as themselves |
| Lexer.ClosesAtEnd | ext/replitdb.js:275 | a phrase without quotes and line breaks is closed by the quote right after it |
| Lexer.QuotedScan | ext/replitdb.js:275-276 | a quoted phrase on one line is trimmed and scanned to its marked inner text |
| Lexer.QuotedTrim | ext/replitdb.js:275 | a phrase in double quotes is left as it is by trim |
| Lexer.QuotedSpan | ext/replitdb.js:275-276 | the quote replacement reads a one-line quoted phrase as one span |
| Lexer.QuotedPhrase | ext/replitdb.js:273-277 | a double-quoted phrase whose only whitespace is ' ' lexes to one token, without its quotes |
| Lexer.QuotedPhraseTokens | ext/replitdb.js:271-277 | the same holds for the placeholder tokenizer |
| Lexer.QuotedTabSplits | ext/replitdb.js:275-277 | a tab inside quotes still splits the phrase, since only ' ' is protected |
| Lexer.TabLine | ext/replitdb.js:275 | the tab phrase has no quote and no line break |
| Lexer.TabMark | ext/replitdb.js:276 | the tab phrase keeps its tab as a breaking character |
| Lexer.CutTab | ext/replitdb.js:277 | the tab cuts the phrase in two |
| Lexer.ShowTab | ext/replitdb.js:277 | the two halves show as "a" and "b" |
| Lexer.PlaceholderInArgument | ext/replitdb.js:271-277 | an argument that contains the placeholder text itself is turned into a space by the tokenizer, unlike the reference lexer |
| Lexer.PlaceholderText | ext/replitdb.js:271 | the placeholder text between two letters holds no whitespace and no quote |
| Lexer.PlaceholderTokens | ext/replitdb.js:271-277 | the tokenizer turns "a", the placeholder, "b" into the single word "a b" |
| Lexer.PlaceholderLex | ext/replitdb.js:275-277 | the reference lexer keeps "a", the placeholder, "b" as one word unchanged |
| Lexer.PlaceholderRestored | ext/replitdb.js:277 | restoring turns the placeholder between two letters into a space |
| Query.Strs | ext/replitdb.js:278 | each token is pushed as a string, in order |
| Query.GatherAppend | ext/replitdb.js:273-282 | gathering items over concatenated arguments concatenates the gathered items |
| Query.WordsAppend | ext/replitdb.js:273-282 | the words of concatenated arguments are the concatenated words |
| Query.WordsSnoc | ext/replitdb.js:273-282 | one more argument appends its items |
| Query.NonStringsPass | ext/replitdb.js:279-281 | non-string arguments are passed through unchanged |
| Query.Collect | ext/replitdb.js:272-282 | the query list is each argument's tokens, or the argument itself, in argument order |
| Query.Push | ext/replitdb.js:278 | appends the tokens as strings at the end of the query list |
| Query.DotSplit | ext/replitdb.js:283 | the path split yields at least one segment; each code unit other than a line break ends a segment, so a character outside the Basic Multilingual Plane ends two |
| Query.CodeUnits | ext/replitdb.js:283 | the UTF-16 length of a text is at least its number of characters |
| Query.DotSplitAstral | ext/replitdb.js:283 | a single character outside the Basic Multilingual Plane is two code units and splits into three empty segments |
| Query.DotSplitOnlyBreaks | ext/replitdb.js:283 | every character left in a segment is a line break |
| Query.DotSplitPieces | ext/replitdb.js:283 | the segments join to the line breaks of the path word, and there is one more segment than the word has UTF-16 code units that are not line breaks |
| Query.Blank | ext/replitdb.js:283 | n empty segments |
| Query.DotSplitStep | ext/replitdb.js:283 | a line break joins the first segment; any other character starts one new empty segment per UTF-16 code unit |
| Query.ConcatTwoEmpty | ext/replitdb.js:283 | two empty segments in front add nothing to the joined segments |
| Query.DotSplitBlank | ext/replitdb.js:283 | a one-line path word of n UTF-16 code units splits into n+1 empty segments |
| Query.Walk | ext/replitdb.js:288-291 | the cursor after walking the segments is `Navigate` of them |
| Query.Sentinels | ext/replitdb.js:288-291 | the path added by n empty segments is 7n characters long |
| Query.SentinelsShape | ext/replitdb.js:219-223 | the path added by n empty segments is `:$EMPTY` over and over |
| Query.NavigateBlank | ext/replitdb.js:288-291 | walking n empty segments from the cursor at `c` reaches `c` followed by `:$EMPTY` repeated n times |
| Query.Plan | ext/replitdb.js:283-300 | only a query with a string path word reaches a cursor, and a SET carries its third word, which holds no null |
| Query.Call | ext/replitdb.js:270-301 | on the cursor at `c`: GET answers `finish` of the path walked from `c`, SET stores `Encode` of the last segment, DELETE stores `Deleted`, other verbs change nothing, and a missing path word throws without writing |
| Query.GetPath | ext/replitdb.js:283-294 | `GET t` on the cursor at `c`, for a one-line `t` of n UTF-16 code units, fetches `c` followed by `:$EMPTY` repeated n+1 times |
| Query.PlanGet | ext/replitdb.js:283-294 | a GET query fetches the node all the segments of its path word reach from `c` |
| Query.BlankPath | ext/replitdb.js:283-291 | the segments of a one-line path word lead from `c` to `c` followed by `:$EMPTY` once per code unit, plus once |
| Query.SetPath | ext/replitdb.js:283-297 | `SET t v` on the cursor at `c` writes `v` under the empty name at `c` followed by `:$EMPTY` repeated n times, n the code units of `t` |
| Query.DeletePath | ext/replitdb.js:283-300 | `DELETE t` on the cursor at `c` deletes the empty name at `c` followed by `:$EMPTY` repeated n times, n the code units of `t` |
| Query.PlanDelete | ext/replitdb.js:284-300 | a DELETE query removes the last segment under the cursor the other segments reach from `c` |
| Query.GetIgnoresNames | ext/replitdb.js:283-294 | two one-line GET paths with the same number of UTF-16 code units read the same node |
| Query.GetPathOf | ext/replitdb.js:283-294 | `GetPath` for a path word whose code-unit length is given |
| Query.ChangePath | ext/replitdb.js:283-300 | `SET t v` and `DELETE t` on the cursor at `c` act on the empty name under `c` followed by `:$EMPTY` repeated n times, n the code units of `t` |
| Query.ChangeTarget | ext/replitdb.js:284-287 | the last segment is empty, and the other segments lead from `c` to `c` followed by `:$EMPTY` once per code unit of `t` |
| Query.QuerySetIsLost | ext/replitdb.js:283-297 | on any cursor, a value set by `SET t v` is not found by `GET t` |
| Query.QueryDeleteDropsParent | ext/replitdb.js:283-300 | on any cursor, `DELETE t` removes the type tag of the node it walked to, which then reads as null |
| Query.TextWords | ext/replitdb.js:273-282 | the text `GET w` is collected as the two words `GET` and `w` |
| Query.TextGet | ext/replitdb.js:273-294 | the single text argument `GET w` is tokenized into `GET` and `w`, and on the cursor at `c` fetches `c` followed by `:$EMPTY` repeated once per code unit of `w`, plus once |

## Left out

- The HTTP transport (`fetch`, URLs, URL encoding of keys and values) is not modelled. The `Client` holds the database as a map from key to text.
- `empty`, `getAll`, `setAll` and `deleteMultiple` of the client are not modelled, because the cursor layer never calls them.
- Asynchrony is not modelled. The source does not await the codec's `encode` before writing the type tag, and store calls may interleave. The model performs every store call in program order.
- The events, the file-system snapshot, the `global.query` proxy, the demo code and the `reset`/`init` event emission are not modelled. They are I/O and wiring around the cursor.
- The `w` helper (moving `get`/`set`/`delete`/`finish` onto the `call` function) is not modelled. It only changes how members are reached.
- Values.ParseNumber: reads only the empty text (as 0, like `Number("")`) and an optionally signed run of decimal digits. JavaScript's `Number` also accepts surrounding white space (`Number(" 12 ")` is 12), `0x`, `0o` and `0b` prefixes (`Number("0x10")` is 16), fractions and exponents (`Number("12.")` is 12), and `Infinity`, and gives `NaN` for the rest. The model answers the fault `NotAnInteger` for all of these texts, whether JavaScript gives a number or `NaN`.
- Codec.DecodeArray: a `length` child that `Values.ParseNumber` does not read ends decoding with the fault `NotAnInteger`. In JavaScript a `NaN` length makes the loop run zero times, so `finish` gives `[]`, and a fractional length such as 2.5 reads the elements 0, 1 and 2.
- RoundTrip.ScalarLayout: numbers are unbounded integers in the model and are always written as plain decimal text. JavaScript numbers are IEEE 754 doubles: not every integer beyond 2^53 in magnitude can be held, and `toString` writes exponent form from 10^21 on (`1e+21`). This row, `Values.IntToString` and `RoundTrip.ScalarRoundTrip` match JavaScript only for integers below 2^53 in magnitude.
- Cursor.Finish: the crash on an unknown type tag (`impl[tag]` is undefined) is modelled as the error `UnknownTag`, not as an exception.
- Cursor.Set: requires that the value contains no null. The source crashes on `null.constructor` after writing part of the value, and those partial writes are not modelled. `Query.Call` throws before writing anything in that case.
- Object key order follows insertion order. JavaScript's ordering of integer-like keys first, and the special `__proto__` key, are not modelled.
- The placeholder's random number is the text parameter `r`. Neither its value nor how it is drawn is modelled.
- Strings are sequences of Unicode characters. Only `Query.DotSplit` counts UTF-16 code units, because `/./g` matches one code unit at a time. Lone surrogates and any Unicode normalisation are not modelled.
- `Tokens.IsSpace`: the characters treated as whitespace are the ones the ECMAScript standard lists for `\s` and `trim`. Other Unicode space separators are not modelled.
- `Query.Call` on a `DELETE` passes an extra argument that `delete` ignores; that argument is dropped.
- Values other than strings, numbers, booleans, arrays, plain objects and null are not modelled. Their constructor names have no codec.
