/**
 * The steps of ExecuteMap that do not call into the automation library: after
 * the document is open, find the first source and the first target component,
 * rebind their files when new paths are given, and format the transformation's
 * result messages. ErrorCode gives the number the error line shows for an
 * exception's status code; the console output itself is not modelled.
 */
module MappingExecution {
  import opened Outcomes
  import opened Components
  import opened OutputFormatting

  datatype Mapping = Mapping(components: seq<Component>)

  datatype Document = Document(mainMapping: Mapping)

  /** What ExecuteMap ends with; a failure is what it reports through Error. */
  datatype ExecuteOutcome =
    | DocumentNotOpened
    | Failed(message: string, error: LookupError)
    | Transformed(summaryInfo: string)

  /** string.IsNullOrEmpty, with None for a null string. */
  predicate IsNullOrEmpty(s: Option<string>) {
    s.None? || s.value == ""
  }

  /** The components of the main mapping of an opened document. */
  function MainComponents(doc: Option<Document>): seq<Component> {
    if doc.Some? then doc.value.mainMapping.components else []
  }

  /** err.HResult & 0xffff, on the 32-bit two's-complement bit pattern of HResult. */
  function ErrorCode(hResult: bv32): (code: bv32)
    ensures code <= 0xffff
  {
    hResult & 0xffff
  }

  /** The displayed code is the status code modulo 2^16 and keeps its low 16 bits. */
  lemma ErrorCodeIsLowBits(hResult: bv32)
    ensures ErrorCode(hResult) == hResult % 0x1_0000
    ensures ErrorCode(hResult) == hResult - (hResult >> 16 << 16)
  {
  }

  /** Sets the source's input file and the target's output file, each only when a non-empty path is given. */
  method RebindFiles(source: Component, target: Component, inputFile: Option<string>, outputFile: Option<string>)
    modifies source`inputInstanceFile, target`outputInstanceFile
    ensures source.inputInstanceFile == if IsNullOrEmpty(inputFile) then old(source.inputInstanceFile) else inputFile.value
    ensures target.outputInstanceFile == if IsNullOrEmpty(outputFile) then old(target.outputInstanceFile) else outputFile.value
  {
    if !IsNullOrEmpty(inputFile) {
      source.inputInstanceFile := inputFile.value;
    }
    if !IsNullOrEmpty(outputFile) {
      target.outputInstanceFile := outputFile.value;
    }
  }

  /**
   * ExecuteMap after OpenDocument (doc is None when opening failed) and with the
   * messages GenerateOutputEx returned given as resultMessages.
   */
  method ExecuteMap(doc: Option<Document>, inputFile: Option<string>, outputFile: Option<string>,
                    resultMessages: seq<AppOutputLine>)
    returns (outcome: ExecuteOutcome)
    modifies set c | c in MainComponents(doc)
    ensures doc.None? ==> outcome == DocumentNotOpened
    ensures doc.Some? && Select(MainComponents(doc), FirstSource).Err? ==>
              outcome == Failed("Failure", Select(MainComponents(doc), FirstSource).error)
    ensures doc.Some? && Select(MainComponents(doc), FirstSource).Ok? && Select(MainComponents(doc), FirstTarget).Err? ==>
              outcome == Failed("Failure", Select(MainComponents(doc), FirstTarget).error)
    ensures doc.Some? && Select(MainComponents(doc), FirstSource).Ok? && Select(MainComponents(doc), FirstTarget).Ok? ==>
              outcome == Transformed("Transformation result: " + ResultMessages(resultMessages))
    ensures forall c :: c in MainComponents(doc) ==>
              c.inputInstanceFile ==
                if outcome.Transformed? && Select(MainComponents(doc), FirstSource) == Ok(c) && !IsNullOrEmpty(inputFile)
                then inputFile.value else old(c.inputInstanceFile)
    ensures forall c :: c in MainComponents(doc) ==>
              c.outputInstanceFile ==
                if outcome.Transformed? && Select(MainComponents(doc), FirstTarget) == Ok(c) && !IsNullOrEmpty(outputFile)
                then outputFile.value else old(c.outputInstanceFile)
  {
    if doc.None? {
      return DocumentNotOpened;
    }
    var components := doc.value.mainMapping.components;
    var sourceComponent := GetFirstSourceComponent(components);
    if sourceComponent.Err? {
      return Failed("Failure", sourceComponent.error);
    }
    var targetComponent := GetFirstTargetComponent(components);
    if targetComponent.Err? {
      return Failed("Failure", targetComponent.error);
    }
    RebindFiles(sourceComponent.value, targetComponent.value, inputFile, outputFile);
    var messages := GetResultMessagesString(resultMessages);
    outcome := Transformed("Transformation result: " + messages);
  }
}
