# PTS9 core, modelled in Dafny

This project models the logic at the heart of PTS, the Python toolkit that accompanies the SKIRT
radiative-transfer code. It leaves out the plotting around that logic. The modelled parts are:

- **The SKIRT stored-table binary format** (`storedtable/io.py`).
  - Modules `NdArrays`, `StoredTableFormat` and `StoredTableIO`.
  - A file is a sequence of 8-byte items: space-padded ASCII names, little-endian 64-bit integers and
    doubles. Doubles are treated as opaque 64-bit words.
  - The pure layout is described by functions. `ReadTable`/`Read` parse the remaining bytes into a
    value plus the bytes that follow it.
  - The writer and reader themselves are methods. They work on an output file that collects bytes
    (`OutFile`) and an input file with a cursor (`InFile`).
  - Numpy arrays are a shape plus their elements in C order. The file holds them in column-major
    order.
- **Broadband filters** (`band/broadband.py`), module `BroadBands`.
  - The segment-subset resolution of band specifications against the built-in band table.
  - The constructor's dispatch on the stored format.
  - The row filters of the SVO, JCMT, PLANCK and ALMA loaders.
  - The band object, with its arrays and accessors.
- **Command-spec resolution.**
  - `admin/command.py`, module `AdminCommand`: `perform` and the argument building of
    `CommandScript`.
  - `do/command.py`, module `DoCommand`: `findScript`.
  - Both share module `CommandListing`. It holds the package and script listing, which is given as an
    input sequence.
- **Ski-file attribute access** (`simulation/skifile.py`), module `SkiFiles`.
  - The XML tree is a sequence of elements with attribute maps.
  - XPath evaluation is a selector function given as a parameter.
- **Quantity extraction from SKIRT text output** (`simulation/text.py`), module `Text`. The file is
  its sequence of lines.
- **The SKIRT command line and the state of an asynchronous run** (`simulation/skirt.py`), module
  `SkirtRuns`.
- **Unit-string rewriting** (`simulation/units.py`), module `Units`.
- **The binning geometry and binning loops of the polarization maps**
  (`visual/plotpolarization.py`), module `PolarizationMaps`.

Shared helpers:

- `Wrappers`: the `Option`, `Result` and `Outcome` types.
- `PyStrings`: Python's `str.strip`, `split`, `join`, `replace`, `upper`/`lower` (ASCII), `str(int)`
  and `int(str)`, plus the pathlib suffix and stem.
- `Seqs`: an order-preserving filter and reversal.
- `Arith`: small nonlinear-arithmetic facts.

## Model

| member | source | states |
|---|---|---|
| StoredTableFormat.IntItem | storedtable/io.py:233-234 | `struct.pack('<Q', n)` gives 8 bytes exactly when n < 2^64; the bytes decode little-endian to n |
| StoredTableFormat.IntFromBytes | storedtable/io.py:214-215 | `struct.unpack('<Q', b)` of 8 bytes is the number whose item is those bytes |
| StoredTableFormat.DecodeEncodeLE | storedtable/io.py:214-234 | decoding the k-byte little-endian encoding of n < 256^k gives n |
| StoredTableFormat.EncodeDecodeLE | storedtable/io.py:214-234 | encoding the value of any byte string at its own length gives the bytes back |
| StoredTableFormat.NameItemSpec | storedtable/io.py:238-245 | a name is accepted iff its stripped form has 1 to 8 characters, each strictly between space and DEL; the item is that form padded with spaces to 8 bytes |
| StoredTableFormat.RStripSpaces | storedtable/io.py:219-220 | the right half of `bytes.strip()`: exactly the trailing run of ASCII white space is removed (NameFromBytes combines it with the left half) |
| StoredTableFormat.NameFromBytes | storedtable/io.py:219-220 | a decoded name holds only 7-bit characters |
| StoredTableFormat.NameRoundTrip | storedtable/io.py:219-220 | reading the item written for s gives `s.strip()` |
| StoredTableFormat.DoubleItems | storedtable/io.py:249-250 | n doubles take 8n bytes |
| StoredTableFormat.DoubleItemsAt | storedtable/io.py:249-250 | the k-th group of 8 bytes encodes the k-th double |
| StoredTableFormat.DoublesFromBytes | storedtable/io.py:224-227 | reading `count` doubles gives `count` doubles |
| StoredTableFormat.DoublesRoundTrip | storedtable/io.py:224-250 | reading back the doubles written gives the same doubles |
| StoredTableFormat.FlattenLength | storedtable/io.py:202 | the data of q arrays of p elements each has q*p elements |
| StoredTableFormat.FlattenSlice | storedtable/io.py:202 | array i occupies elements i*p to i*p+p of the stacked data |
| StoredTableFormat.Sub | storedtable/io.py:137 | `a[i]` has the shape without the first axis, and its element at idx is a's element at [i]+idx |
| StoredTableFormat.Stack | storedtable/io.py:202 | `np.stack` adds a first axis indexing the arrays, and sub-array i is array i |
| StoredTableFormat.GridLengths | storedtable/io.py:170 | the required value shape is the list of the grid lengths |
| StoredTableFormat.Validate | storedtable/io.py:165-176 | the writer's checks pass iff the suffix is ".stab", there are 1 to 9 axes with as many units and grids, 1 to 9 quantities with as many units and value arrays, and every value array has the grid lengths as its shape; scales are not checked |
| StoredTableFormat.NameItems | storedtable/io.py:186-188 | the names are written iff each is valid; they take 8 bytes each |
| StoredTableFormat.GridItems | storedtable/io.py:191-193 | the grids are written iff each length fits in 64 bits |
| StoredTableFormat.GridItemsLength | storedtable/io.py:191-193 | the grids take one item for their count plus one per point, for each axis |
| StoredTableFormat.AxesItems | storedtable/io.py:185-193 | the axes section is written only when the count, names, units, scales and grids all are |
| StoredTableFormat.QuantityItems | storedtable/io.py:196-199 | the quantities section is written only when the count, names, units and scales all are |
| StoredTableFormat.ValueItems | storedtable/io.py:202 | the value section has Q * prod(n_i) doubles |
| StoredTableFormat.Items | storedtable/io.py:179-205 | a checked table is written as the tags "SKIRT X" and 0x010203040A0BFEFF, the axes, the quantities, the values and then the tail, in that order |
| StoredTableFormat.WriteLength | storedtable/io.py:179-205 | a written file has 3 + 3A + sum(1 + n_i) + 1 + 3Q + Q * prod(n_i) + 1 items, counting each scales list at its own length |
| StoredTableFormat.ReadInt | storedtable/io.py:214-215 | reading an integer needs 8 bytes, returns the integer those bytes encode and leaves the rest of the file |
| StoredTableFormat.ReadDoubles | storedtable/io.py:224-227 | reading `count` doubles succeeds iff 8*count bytes remain, and consumes exactly those bytes |
| StoredTableFormat.ReadArray | storedtable/io.py:224-227 | an array read with a shape has that shape |
| StoredTableFormat.ReadStrings | storedtable/io.py:108-110 | reading `count` strings gives `count` strings |
| StoredTableFormat.ReadGrids | storedtable/io.py:111 | reading `count` grids gives `count` grids |
| StoredTableFormat.ReadAxes | storedtable/io.py:107-111 | the axes section gives as many names, units, scales and grids as its count says |
| StoredTableFormat.ReadQuantities | storedtable/io.py:114-117 | the quantities section gives as many names, units and scales as its count says |
| StoredTableFormat.Unstack | storedtable/io.py:137 | `values[i]` are the sub-arrays along the first axis, each with the remaining shape |
| StoredTableFormat.ReadValues | storedtable/io.py:120-121 | the value section gives `count` arrays, each shaped like the grids |
| StoredTableFormat.ReadBody | storedtable/io.py:97-121 | a parsed body has matching list lengths and value shapes |
| StoredTableFormat.ReadTable | storedtable/io.py:97-125 | a parsed table has matching list lengths and value shapes |
| StoredTableFormat.StripAll | storedtable/io.py:219-220 | every name is stripped, and the list length is kept |
| StoredTableFormat.Tags | storedtable/io.py:103-125 | the raw header and trailer read as "SKIRT X" and "STABEND" |
| StoredTableFormat.ReadStringOf | storedtable/io.py:219-245 | reading a written name consumes its 8 bytes and gives the stripped name |
| StoredTableFormat.ReadIntOf | storedtable/io.py:214-234 | reading a written integer consumes its 8 bytes and gives the integer |
| StoredTableFormat.ReadStringsOf | storedtable/io.py:108-110 | reading back a written name list gives the stripped names and leaves what follows |
| StoredTableFormat.ReadDoublesOf | storedtable/io.py:224-250 | reading back written doubles gives them and leaves what follows |
| StoredTableFormat.ReadGridsOf | storedtable/io.py:111 | reading back written grids gives them and leaves what follows |
| StoredTableFormat.ReadAxesOf | storedtable/io.py:107-111 | reading back a written axes section gives the stripped names, units and scales, with the grids |
| StoredTableFormat.ReadQuantitiesOf | storedtable/io.py:114-117 | reading back a written quantities section gives the stripped names, units and scales |
| StoredTableFormat.ReadArrayOf | storedtable/io.py:224-250 | reading an array written in file order with its shape restores the array |
| StoredTableFormat.UnstackStack | storedtable/io.py:121-137 | splitting the stacked arrays gives back the arrays |
| StoredTableFormat.ReadValuesOf | storedtable/io.py:120-121 | reading back the written values gives the value arrays |
| StoredTableFormat.ReadBodyOf | storedtable/io.py:97-121 | reading the items of a checked table gives the table with stripped strings, and leaves exactly the bytes after the items |
| StoredTableFormat.WriteReadRoundTrip | storedtable/io.py:97-208 | reading what the writer wrote gives the same table with names, units and scales stripped, when the unchecked scales lists have the right lengths |
| StoredTableFormat.BadNameTag | storedtable/io.py:103 | a file whose first string is not "SKIRT X" is refused |
| StoredTableFormat.BadEndiannessTag | storedtable/io.py:104 | a file with the right name tag and any other endianness tag is refused |
| StoredTableFormat.BadTrailingTag | storedtable/io.py:124-125 | a valid body followed by anything but "STABEND" is refused |
| StoredTableFormat.AddAll | storedtable/io.py:128-137 | the keys of the filled dictionary are the old keys plus the new ones |
| StoredTableFormat.AddAllAt | storedtable/io.py:128-137 | with distinct keys every key maps to its own entry, and the keys not added keep their old entries |
| StoredTableFormat.DistinctSplit | storedtable/io.py:128-137 | the parts of a repetition-free list are repetition-free and disjoint |
| StoredTableFormat.Metadata | storedtable/io.py:128-129 | the metadata keys are exactly the six list names |
| StoredTableFormat.GridEntries | storedtable/io.py:132-133 | entry i is the grid of axis i |
| StoredTableFormat.ValueEntries | storedtable/io.py:136-137 | entry i is the value array of quantity i |
| StoredTableFormat.NamesDisjoint | storedtable/io.py:128-137 | when the metadata keys and the axis and quantity names are all different, each list is repetition-free and no two lists share a name |
| StoredTableFormat.DictionaryEntries | storedtable/io.py:128-137 | under that condition every axis name maps to its grid and every quantity name to its values |
| StoredTableFormat.DictionaryKeys | storedtable/io.py:128-137 | under that condition the keys are exactly the metadata keys and the names, and the metadata entries are kept |
| StoredTableFormat.WriteReadDictionary | storedtable/io.py:97-208 | reading a written file gives the dictionary of the stripped table |
| NdArrays.ColMajor | storedtable/io.py:34-35 | the file position i0 + n0*(i1 + n1*(...)) of an element lies within the array |
| NdArrays.FromColMajor | storedtable/io.py:34-35 | every file position holds exactly one multi-index, whose position it is |
| NdArrays.FromColMajorOfColMajor | storedtable/io.py:34-35 | the column-major position determines the multi-index |
| NdArrays.RowMajor | storedtable/io.py:224-227 | the C-order position of an element lies within the array |
| NdArrays.FromRowMajor | storedtable/io.py:224-227 | every C-order position holds exactly one multi-index, whose position it is |
| NdArrays.FromRowMajorOfRowMajor | storedtable/io.py:224-227 | the C-order position determines the multi-index |
| NdArrays.RowMajorCons | storedtable/io.py:202 | with a new first axis, the C-order position of (i, idx) is i * prod(shape) + the position of idx |
| NdArrays.FileOrder | storedtable/io.py:249-250 | `a.T` flattened puts each element at its column-major position |
| NdArrays.FromFileOrder | storedtable/io.py:224-227 | the reshaped and transposed array holds at idx the item at idx's column-major position |
| NdArrays.FromFileOrderOfFileOrder | storedtable/io.py:224-250 | reading back what was written restores the array |
| NdArrays.FileOrderOfFromFileOrder | storedtable/io.py:224-250 | writing what was read reproduces the items |
| StoredTableIO.OutFile.constructor | storedtable/io.py:179 | a newly opened output file is empty |
| StoredTableIO.OutFile.Write | storedtable/io.py:233-250 | a write appends the bytes |
| StoredTableIO.InFile.constructor | storedtable/io.py:101 | a newly opened input file is read from its first byte |
| StoredTableIO.InFile.Read | storedtable/io.py:214-227 | a read returns the next n bytes, or all that remain, and moves past them |
| StoredTableIO.IntToFile | storedtable/io.py:233-234 | an integer that fits in 64 bits is appended as its 8-byte item; a larger one raises and nothing is written |
| StoredTableIO.StringToFile | storedtable/io.py:238-245 | a valid name is appended as its 8-byte item; otherwise the length or character error is raised and nothing is written |
| StoredTableIO.NameChars | storedtable/io.py:242-244 | the character loop accepts iff every character lies strictly between space and DEL |
| StoredTableIO.NameItemLength | storedtable/io.py:240-241 | a stripped name of fewer than 1 or more than 8 characters gives the length error |
| StoredTableIO.NameItemCharacter | storedtable/io.py:242-244 | a stripped name of valid length with a bad character gives the character error |
| StoredTableIO.NameItemPadded | storedtable/io.py:245 | a valid name is written padded with spaces to 8 bytes |
| StoredTableIO.ArrayToFile | storedtable/io.py:249-250 | the array's doubles are appended in file order |
| StoredTableIO.NamesToFile | storedtable/io.py:186-188 | the names are written one after the other; the first bad name raises |
| StoredTableIO.GridsToFile | storedtable/io.py:191-193 | each grid is written as its length and then its points |
| StoredTableIO.WriteStoredTable | storedtable/io.py:160-208 | the outcome is that of the writer; no file is opened iff a check fails; otherwise the file holds the written image |
| StoredTableIO.WriteItems | storedtable/io.py:179-205 | the body of the `with open` block appends the image of the table |
| StoredTableIO.IntFromFile | storedtable/io.py:214-215 | reading an integer from the file agrees with reading it from the remaining bytes |
| StoredTableIO.StringFromFile | storedtable/io.py:219-220 | reading a string from the file agrees with reading it from the remaining bytes |
| StoredTableIO.ArrayFromFile | storedtable/io.py:224-227 | reading an array from the file agrees with reading it from the remaining bytes |
| StoredTableIO.StringsFromFile | storedtable/io.py:108-110 | reading a list of strings from the file agrees with reading it from the remaining bytes |
| StoredTableIO.PointsFromFile | storedtable/io.py:111 | reading an axis's points agrees with reading doubles from the remaining bytes |
| StoredTableIO.GridFromFile | storedtable/io.py:111 | reading one grid agrees with reading its count and points from the remaining bytes |
| StoredTableIO.GridsFromFile | storedtable/io.py:111 | reading the grids agrees with reading them from the remaining bytes |
| StoredTableIO.AxesFromFile | storedtable/io.py:107-111 | reading the axes section agrees with its functional reading |
| StoredTableIO.QuantitiesFromFile | storedtable/io.py:114-117 | reading the quantities section agrees with its functional reading |
| StoredTableIO.ValuesFromFile | storedtable/io.py:120-121 | reading the values agrees with their functional reading |
| StoredTableIO.TableFromFile | storedtable/io.py:97-121 | reading up to the trailer agrees with the functional reading of the body |
| StoredTableIO.DictionaryOf | storedtable/io.py:128-137 | the loops build exactly the dictionary of the table |
| StoredTableIO.ReadStoredTable | storedtable/io.py:97-139 | the reader returns what the functional reading of the contents gives |
| StoredTableIO.ReadStringsFirstFails | storedtable/io.py:108-110 | a list whose first string cannot be read fails with that error |
| StoredTableIO.NameItemsConcat | storedtable/io.py:186-188 | the items of two name lists one after the other are those of the joined list |
| StoredTableIO.GridItemsConcat | storedtable/io.py:191-193 | the items of two grid lists one after the other are those of the joined list |
| StoredTableIO.GridItemsFail | storedtable/io.py:191-193 | the first grid whose length does not fit in 64 bits makes the grids fail |
| StoredTableIO.NameItemsFail | storedtable/io.py:186-188 | the first bad name makes the names fail with its error |
| StoredTableIO.OneAxis | storedtable/io.py:111 | a one-dimensional array is its own file order |
| StoredTableIO.ReadArrayOneAxis | storedtable/io.py:111 | reading a one-dimensional array is reading its doubles |
| BroadBands.LookupFound | band/broadband.py:257 | every key of the band table has an entry |
| BroadBands.BandNameFromSpec | band/broadband.py:283-295 | the loop over the band names returns the resolution of the spec: the only match, or the first two matches, or no match |
| BroadBands.MatchingStep | band/broadband.py:285-289 | one more name adds it to the matches iff it matches |
| BroadBands.SecondMatch | band/broadband.py:289-290 | a second match makes the resolution report the first and this second match |
| BroadBands.ResolveOk | band/broadband.py:286-295 | a resolved name is a band name that matches, and no other band name matches |
| BroadBands.ResolveNone | band/broadband.py:293-294 | "no match" is reported iff no band name matches |
| BroadBands.ResolveMultiple | band/broadband.py:289-290 | "multiple matches" names the first two matching band names, in table order |
| BroadBands.DocumentedSpecs | band/broadband.py:241-243 | "Herschel 100", "PACS 100" and "HERSCHEL_PACS_100" all match HERSCHEL_PACS_100 |
| BroadBands.WholeSegmentsPacs | band/broadband.py:284-288 | "PACS 100" does not match HERSCHEL_PACS_160: segments match whole |
| BroadBands.WholeSegmentsIras | band/broadband.py:284-288 | "Herschel 100" does not match IRAS_IRAS_100 |
| BroadBands.MissingSegment | band/broadband.py:284-288 | a spec segment that is not a name segment rules the name out |
| BroadBands.JoinedSegments | band/broadband.py:284-288 | a name joined from plain words by '_' or ' ' has the upper-cased words as its segments |
| BroadBands.SvoRoundTrip | band/broadband.py:299-311 | the SVO rows are the consecutive (wavelength, transmission) pairs of the table |
| BroadBands.AlmaSelection | band/broadband.py:360-378 | the ALMA loader keeps exactly the rows strictly inside (wmin, wmax), in reverse order |
| BroadBands.PeakSpec | band/broadband.py:345-346 | the peak is a transmission of the rows and no row exceeds it |
| BroadBands.HfiSelection | band/broadband.py:339-347 | the HFI loader keeps exactly the rows above ten times their uncertainty and above 1/5000 of the peak of those; at least one row is kept iff that peak is positive |
| BroadBands.BuildDispatch | band/broadband.py:251-276 | a string resolves to a built-in band (never "Uniform") or gives the resolution error; a pair gives the uniform band; anything else is rejected |
| BroadBands.Times | band/broadband.py:384-385 | the element-wise product has the length of its columns |
| BroadBands.TimesIndex | band/broadband.py:384-385 | element k of the product is the product of the elements k |
| BroadBands.BroadBand.FromCurve | band/broadband.py:251-276 | the band's arrays hold the curve's wavelengths and transmissions, with its name and photon-counter flag |
| BroadBands.BroadBand.WeighPhotonCounter | band/broadband.py:384-385 | for a photon counter the transmissions are multiplied by the wavelengths in place; otherwise they are unchanged |
| BroadBands.BroadBand.Create | band/broadband.py:251-276 | the constructor succeeds iff the build does, and then holds the built name, wavelengths and weighted transmissions |
| BroadBands.BroadBand.Name | band/broadband.py:399-400 | the name is "Uniform" or a key of the band table |
| BroadBands.BroadBand.MinWavelength | band/broadband.py:409-410 | the result is the first stored wavelength, as `_Wavelengths[0]`, or none when no wavelength is stored |
| BroadBands.BroadBand.MaxWavelength | band/broadband.py:413-414 | the result is the last stored wavelength, as `_Wavelengths[-1]`, or none when no wavelength is stored |
| BroadBands.BroadBand.TransmissionCurve | band/broadband.py:428-429 | the curve is returned as two fresh copies of the arrays, so changing them leaves the band unchanged |
| BroadBands.UniformRange | band/broadband.py:267-271 | a pair (a, b) gives the wavelengths [a, b] with transmissions of one |
| CommandListing.SpecNames | admin/command.py:105-113 | one part gives no package and the script part as given; two parts are both lower-cased; more parts are an invalid spec |
| CommandListing.PyStemsMembers | admin/command.py:125 | a stem is listed iff some ".py" file of the listing has it |
| CommandListing.ScriptsInMembers | admin/command.py:125 | a package lists script c iff it holds a ".py" file with that stem |
| CommandListing.ScriptsMembers | admin/command.py:125 | the scripts of the packages are exactly the scripts some package provides |
| CommandListing.CandidatesMembers | admin/command.py:119-132 | the candidates are exactly the scripts of a package whose lower-cased name starts with the package spec and that pass the script filter |
| CommandListing.Unique | admin/command.py:135-138 | no candidate gives "not found", several give "ambiguous", and otherwise the one candidate is the result |
| CommandListing.TwoSelected | admin/command.py:137-138 | two different selected scripts make the command ambiguous |
| CommandListing.ScriptsEligible | admin/command.py:119-126 | the scripts of the packages whose name starts with the package spec are the listing's scripts whose package name does, in the same order |
| CommandListing.CandidatesDistinct | admin/command.py:119-132 | in a listing without a repeated (package, script) pair no candidate occurs twice |
| CommandListing.UniqueSelected | admin/command.py:135-142 | in such a listing, a script that is selected while no other is is the result of the final check |
| AdminCommand.ScriptOnlySpec | admin/command.py:105-108 | a spec without '/' is a script spec only, not lower-cased |
| AdminCommand.PackageScriptSpec | admin/command.py:109-111 | "package/script" gives both parts lower-cased |
| AdminCommand.InvalidSpec | admin/command.py:112-113 | a spec is invalid iff it has two or more '/' |
| AdminCommand.PerformFound | admin/command.py:119-142 | a found script is selected, and it is the only selected script |
| AdminCommand.PerformUnique | admin/command.py:119-142 | the converse: in a listing without a repeated (package, script) pair, a spec that selects one script and no other locates it |
| AdminCommand.PerformNotFound | admin/command.py:135-136 | "not found" is reported iff the spec is valid and no script is selected |
| AdminCommand.PerformAmbiguous | admin/command.py:137-138 | two different selected scripts give "ambiguous" |
| AdminCommand.UpperCaseScriptSpec | admin/command.py:105-108 | a script-only spec with an upper-case letter finds nothing, because names are lower-cased before matching |
| AdminCommand.NoUpperMatch | admin/command.py:128-132 | a script spec with an upper-case letter matches no script name |
| AdminCommand.SegmentMatch | admin/command.py:128-132 | a spec without '_' that starts a '_'-segment of the lower-cased name matches |
| AdminCommand.TryDoSelection | admin/command.py:119-142 | a spec whose names match admin/try_do locates it in any listing that holds it, has no repeated pair, and has no other script matching the same spec |
| AdminCommand.DocumentedShortcuts | admin/command.py:28-36 | in any listing that holds admin/try_do, with no other command script matching the same shortcut, "admin/try_do", "ad/tr", "tr" and "do" all resolve to admin/try_do |
| AdminCommand.FullNameShortcut | admin/command.py:28-36 | in any listing that holds admin/try_do, with no other script matching "admin/try_do", the full name resolves to admin/try_do |
| AdminCommand.PrefixShortcut | admin/command.py:28-36 | in any listing that holds admin/try_do, with no other script matching "ad/tr", "ad/tr" resolves to admin/try_do |
| AdminCommand.SegmentShortcut | admin/command.py:28-36 | in any listing that holds admin/try_do, with no other script matching the spec, "tr" and "do" resolve to admin/try_do by segment prefix |
| AdminCommand.TryDoListing | admin/command.py:31-36 | the listing whose only command script is admin/try_do meets the conditions of the shortcut lemmas for every spec |
| AdminCommand.ArgumentRoundTrip | admin/command.py:194-200 | each parameter yields one argument, positional iff it has no default, else the option "--" + name carrying the default; the parameter can be read back from it |
| AdminCommand.ArgumentParser.constructor | admin/command.py:191-192 | the parser starts without arguments |
| AdminCommand.ArgumentParser.AddArgument | admin/command.py:194-200 | an argument is appended |
| AdminCommand.CommandScript.constructor | admin/command.py:169-180 | the name is the package and script names joined by '/' |
| AdminCommand.CommandScript.BuildParser | admin/command.py:191-200 | the parser holds the command-name argument and then one argument per parameter, in order |
| AdminCommand.CommandScript.DoArguments | admin/command.py:203-204 | the parsed arguments lose exactly the command-name entry, and keep the others |
| DoCommand.ScriptOnlySpec | do/command.py:30-33 | a spec without '/' or '_' is a script spec only, not lower-cased |
| DoCommand.UnderscoreSeparates | do/command.py:30-36 | "a_b" and "a/b" both mean package a and script b, lower-cased |
| DoCommand.InvalidSpec | do/command.py:30-38 | a spec is invalid iff it has two or more separators, '/' and '_' together |
| DoCommand.FindScriptFound | do/command.py:44-62 | a found import path is that of the only selected script, where scripts match on a full-name prefix |
| DoCommand.FindScriptUnique | do/command.py:44-62 | the converse: in a listing without a repeated (package, script) pair, a spec that selects one script and no other gives its import path |
| DoCommand.FindScriptNotFound | do/command.py:56-57 | "not found" is reported iff the spec is valid and no script is selected |
| DoCommand.FindScriptAmbiguous | do/command.py:58-59 | two different selected scripts give "ambiguous" |
| DoCommand.ImportPathNames | do/command.py:62 | the result is "pts.<package>.do.<script>" |
| SkiFiles.SaveNames | simulation/skifile.py:51-52 | a name that can be saved can be opened; a "_parameters.xml" name can be opened but not saved |
| SkiFiles.Select | simulation/skifile.py:89-93 | the selection succeeds iff the xpath selects exactly one element; no node and several nodes are the two errors |
| SkiFiles.GetString | simulation/skifile.py:87-99 | the value is the selected element's attribute; a selection error or a missing attribute raises |
| SkiFiles.SetAttr | simulation/skifile.py:116 | the attribute is set on the element; its other attributes and all other elements are unchanged |
| SkiFiles.SetString | simulation/skifile.py:105-116 | the selection rules of the getter apply, a non-string value is rejected, and otherwise the attribute is set |
| SkiFiles.SetThenGet | simulation/skifile.py:87-116 | after a set, the getter on the same xpath and attribute returns the value |
| SkiFiles.SetKeepsOthers | simulation/skifile.py:87-116 | after a set, every other attribute reads as before |
| SkiFiles.TrailingZeros | simulation/skifile.py:135 | the number of trailing zeros is at most the length |
| SkiFiles.TrailingZerosSpec | simulation/skifile.py:135 | the counted characters are zeros and the one before them is not |
| SkiFiles.FloatTextPlain | simulation/skifile.py:135-137 | without an exponent, k <= 3 trailing zeros are kept and k >= 4 become "e" + k |
| SkiFiles.FloatTextInteger | simulation/skifile.py:135-137 | an integer with k >= 4 trailing zeros becomes its leading digits, "e" and k |
| SkiFiles.FloatTextShort | simulation/skifile.py:129-137 | text without exponent rewrites and with at most three trailing zeros is kept |
| SkiFiles.FloatTextNegativeShort | simulation/skifile.py:132 | "e-0d" becomes "e-d" |
| SkiFiles.FloatTextNegativeLong | simulation/skifile.py:132 | "e-dd" is kept |
| SkiFiles.FloatTextPositiveShort | simulation/skifile.py:132 | "e+0d" becomes "ed" |
| SkiFiles.FloatTextPositiveLong | simulation/skifile.py:132 | "e+dd" becomes "edd" |
| SkiFiles.GetFloat | simulation/skifile.py:121-122 | the value is `float()` of the attribute string, and the getter's errors propagate |
| SkiFiles.GetInt | simulation/skifile.py:144-145 | the value is `int()` of the attribute string, and the getter's errors propagate |
| SkiFiles.SetIntThenGet | simulation/skifile.py:144-151 | after setting n, the integer getter returns n |
| SkiFiles.BoolText | simulation/skifile.py:164-165 | the written text reads back as the same truth value |
| SkiFiles.GetBool | simulation/skifile.py:157-159 | the value is true iff the stripped, lower-cased string is "true", "t", "yes", "y" or "1" |
| SkiFiles.SetBoolThenGet | simulation/skifile.py:157-165 | after setting b, the Boolean getter returns b |
| SkiFiles.SkiFile.Load | simulation/skifile.py:55 | the loaded file holds its path and the parsed tree |
| SkiFiles.SkiFile.Open | simulation/skifile.py:48-55 | a file opens iff its name ends, ignoring case, in ".ski" or "_parameters.xml" |
| SkiFiles.SkiFile.SaveTo | simulation/skifile.py:67-79 | saving needs a ".ski" name, and then sets the producer and time attributes on the root element; a bad name changes nothing |
| SkiFiles.SkiFile.SetStringAttribute | simulation/skifile.py:105-116 | the tree becomes the result of the set, or is unchanged on an error |
| SkiFiles.SkiFile.SetFloatAttribute | simulation/skifile.py:127-140 | the tree gets the rewritten float text, or is unchanged on an error |
| SkiFiles.SkiFile.SetIntAttribute | simulation/skifile.py:150-151 | the tree gets `str(n)`, and the integer getter then reads n |
| SkiFiles.SkiFile.SetBoolAttribute | simulation/skifile.py:164-165 | the tree gets "true" or "false", and the Boolean getter then reads b |
| SkiFiles.SkiFile.SetNumPrimaryPackets | simulation/skifile.py:174-175 | the numPackets attribute of the Monte Carlo simulation gets the rewritten float text |
| Text.Trimmed | simulation/text.py:54-55 | when the stripped line ends in ')', the line is cut at its last '(' (or loses its last character if there is none); otherwise it is kept |
| Text.LineQuantity | simulation/text.py:56-61 | a header line yields a quantity or the number error, never "not found" |
| Text.LineQuantitySpec | simulation/text.py:56-61 | fewer than two segments are skipped; a numeric last segment is dimensionless; otherwise the second-to-last segment is the value and the last the unit |
| Text.Triggered | simulation/text.py:51 | the count of met sub-triggers is at most the number of sub-triggers and of lines |
| Text.GreedyMatch | simulation/text.py:51 | a line meeting the next sub-trigger extends the matches by that line |
| Text.GreedyNoMatch | simulation/text.py:51 | a line not meeting it leaves the matches as they are |
| Text.TriggerPositions | simulation/text.py:46-51 | the sub-triggers are met greedily and in order, at most one per line |
| Text.HeaderAfterTriggers | simulation/text.py:51-52 | every sub-trigger is met on a line before the header line, in order |
| Text.GetQuantityFromFile | simulation/text.py:44-63 | the result is the quantity of the first qualifying line, or "not found" iff no line qualifies |
| SkirtRuns.MpiPrefix | simulation/skirt.py:92-104 | 'lsf' and 'srun' give their mpirun prefixes, another string raises, n > 1 gives "mpirun -np n", anything else no prefix |
| SkirtRuns.MpiLauncher | simulation/skirt.py:92-104 | the prefix is empty iff MPI is not used, and otherwise starts with "mpirun" |
| SkirtRuns.IoPathsDependence | simulation/skirt.py:113-119 | without skiRelative the directories do not depend on the ski file; with it they depend only on its directory |
| SkirtRuns.OptionFlagsSpec | simulation/skirt.py:124-132 | "-t" n appears iff threads > 0, "-v" iff verbose, "-b" iff console is not 'regular' or not wait, in that order |
| SkirtRuns.Skirt.Init | simulation/skirt.py:45-46 | a new object remembers no process |
| SkirtRuns.Skirt.Create | simulation/skirt.py:33-46 | without a path the located executable is used, if any; with a path, its absolute form must be an existing file |
| SkirtRuns.Skirt.IsRunning | simulation/skirt.py:147-154 | true iff a remembered process has not exited; an exited process is forgotten |
| SkirtRuns.Skirt.Execute | simulation/skirt.py:83-143 | refuses while a process runs; otherwise the command line is the MPI prefix, the executable, the ski file, "-i" and "-o" with the directories, then the flags; only an asynchronous run is remembered |
| SkirtRuns.ArgumentLayout | simulation/skirt.py:107-121 | after the prefix come the executable, the ski file, "-i" with the input and "-o" with the output directory, then the flags |
| Units.AngstromSegments | simulation/units.py:38 | each '/'-segment "A" becomes "Angstrom", and the others are kept |
| Units.AngstromRewrite | simulation/units.py:37-38 | a rewritten string has as many '/'-segments as before, each "A" turned into "Angstrom" |
| Units.AngstromKeepsA | simulation/units.py:37-38 | the rewrite keeps an 'A' in the string |
| Units.UnitTextIdempotent | simulation/units.py:33-38 | rewriting a unit string twice gives the same as rewriting it once |
| Units.UnitOf | simulation/units.py:31-47 | strings are rewritten and parsed, quantities give their unit, units themselves, and anything else is rejected |
| Units.Latex | simulation/units.py:52-53 | the latex form is "$\,$[", the unit's latex and "]" |
| PolarizationMaps.DropSplit | visual/plotpolarization.py:83-90 | 0 <= start <= drop < bin, and the pixels split into start, the whole bins and drop - start |
| PolarizationMaps.BinsAdjacent | visual/plotpolarization.py:129-132 | bin k ends where bin k + 1 begins, one bin size after its own begin |
| PolarizationMaps.BinInside | visual/plotpolarization.py:127-132 | every bin of the map is a non-empty pixel range inside the frame |
| PolarizationMaps.BinOf | visual/plotpolarization.py:127-132 | each pixel of [start, start + n - drop) lies in exactly one bin of the map |
| PolarizationMaps.DroppedPixel | visual/plotpolarization.py:83-90 | a pixel outside that range lies in no bin |
| PolarizationMaps.PositionCount | visual/plotpolarization.py:93-94 | `np.arange` gives exactly n div bin positions |
| PolarizationMaps.PositionCentre | visual/plotpolarization.py:93-94 | each position is the centre of its bin's pixel range |
| PolarizationMaps.WavelengthIndices | visual/plotpolarization.py:99-105 | None gives [0], 'all' every frame index, and one or more wavelengths the instrument's indices for them |
| PolarizationMaps.RowSumSplit | visual/plotpolarization.py:129-132 | a row sum splits at any column |
| PolarizationMaps.BlockSumRows | visual/plotpolarization.py:129-132 | a block sum splits at any row |
| PolarizationMaps.BlockSumColumns | visual/plotpolarization.py:129-132 | a block sum splits at any column |
| PolarizationMaps.AdjacentBins | visual/plotpolarization.py:129-132 | two horizontally adjacent bins sum to the block they cover together |
| PolarizationMaps.BinCell | visual/plotpolarization.py:129-134 | one cell of each map gets its bin sum, V divided by I, and no other cell changes |
| PolarizationMaps.BinFrames | visual/plotpolarization.py:113-134 | the four maps are new arrays of shape (ny div binY, nx div binX); every I, Q and U cell holds its bin's sum and every V cell its bin's V sum divided by its I sum |

## Left out

- I/O through the file system is not modelled. Files are byte sequences or line sequences given to the
  model, and directory listings are input sequences.
- `pts.utils.path` is not part of this model. Absolute paths, parents and joins are function
  parameters, and so is the executable that `skirt()` locates.
- Logging and printing are left out.
- NameFromBytes: UTF-8 decoding is modelled for 7-bit bytes only. A byte of 128 or more is rejected,
  where Python would decode a valid multi-byte sequence. The writer only ever writes 7-bit names.
- StoredTableIO.NamesToFile: the bytes written before a failing name are not stated. Only the
  outcome, and the contents on success, are stated. The same holds for GridsToFile and WriteItems.
- Doubles are opaque 64-bit words. No floating-point value is interpreted.
- StoredTableFormat.DictionaryEntries: Python dictionary order is not modelled. A dictionary is a
  map.
- The trapz normalisation of band transmissions is left out, because it is floating point. So are
  the pivot wavelength and effective width.
- Unit conversions of the band tables (micron, frequency and wavenumber to wavelength) are taken as
  computed. The loaders receive the converted columns.
- `np.loadtxt`, lxml, XPath, astropy parsing, Python's `float()` and the "{:1.10g}" format are
  parameters or inputs.
- BroadBands.DocumentedSpecs: it shows that each documented spec matches HERSCHEL_PACS_100. It does
  not show that no other band of the whole built-in table matches, because quantifying over every
  entry of the constant table is too costly to verify. The general rule is ResolveOk and
  ResolveNone: a spec resolves to a band exactly when that band is its only match.
- SkiFiles.SetThenGet: it requires that the selection of the xpath is not changed by the update. XPath is
  abstract, so this does not follow on its own. The same holds for SetKeepsOthers, SetIntThenGet,
  SetBoolThenGet and the getter clauses of the SkiFile setters.
- SkiFiles.SkiFile.SetIntAttribute: it takes an integer. The truncation by `int(value)` of a
  non-integer argument is not modelled.
- SkiFiles.GetInt: Python's `int()` is modelled on an optional sign and decimal digits. Underscores
  and surrounding white space are not accepted.
- SkiFiles.SkiFile.SaveTo: the timestamp is a parameter, and serialisation of the tree is left out.
- Units.UnitOf: astropy's parser and its errors are not modelled. A unit is identified by the text
  handed to it, and its latex form is a parameter.
- Text.LineQuantity: `su.unit()` of a unit segment astropy cannot parse raises, but the model always
  yields the quantity with that unit text. The same holds for GetQuantityFromFile.
- PyStrings.Upper and PyStrings.Lower map ASCII letters only. Python's `'ſ'.upper() == 'S'`,
  `'ß'.upper() == 'SS'` and the Kelvin sign lower-casing to 'k' are lost. The members that compare
  through them are BroadBands.Segments and Matches, CommandListing.SpecNames and PackageMatches,
  AdminCommand.ScriptMatches, DoCommand.ScriptMatches, and SkiFiles.OpenName, SaveName and GetBool.
- SkirtRuns.Skirt.Execute: the subprocess itself and the output redirection are left out. The
  handle of the launched process is an input, and so is whether the remembered process has exited.
  The returned `Simulation` is the plain record of the run; the Simulation class is not part of this
  model.
- AdminCommand.CommandScript.DoArguments: it requires the command-name entry to be present, as
  argparse always puts it there.
- AdminCommand.ArgumentRoundTrip: a float default is carried as its printed text.
- argparse, importlib, `inspect` and the call of the `do()` function are left out.
- PolarizationMaps.BinFrames: the V/I division is an opaque `divide` parameter, and the float sums
  are exact reals without rounding. The `nanstd` detection of circular polarization is left out.
- PolarizationMaps.BinFrames: it requires positive bin sizes. A zero bin size raises
  ZeroDivisionError in the source.
- PolarizationMaps.PositionCount: the scaling of the positions to the axis values (`posX`, `posY`)
  is left out, because it is floating point.
- Frame loading from FITS files and the `.T` transposition are not modelled. The frames are given as
  rows of pixels indexed (y, x).
- The plotting and rendering of the maps are left out, and so are the wavelength names and latex
  labels.
