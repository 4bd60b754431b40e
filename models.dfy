/** The records of src/Models: the key-value fact, the relational fact, the
    reference entities and the aggregate the relational service inserts. */
module Models {
  import opened Wrappers
  import opened Dates
  import opened Decimals

  /** ValorDynamoDB: the amount of one attribute of one series of a family,
      valid from dataInicioVigencia to dataFimVigencia. NomeArquivo is the only
      nullable reference. */
  datatype ValorDynamoDB = ValorDynamoDB(
    nomeFamilia: string,
    nomeSerie: string,
    nomeAtributo: string,
    nomeArquivo: Option<string>,
    valorAtivo: Decimal,
    dataInicioVigencia: DateOnly,
    dataFimVigencia: DateOnly,
    dataAtualizacao: Instant)

  /** A System.Double kept as its 64 bits. The model does no arithmetic with
      it; the numeric column it is stored through is not modelled. */
  datatype Double = Double(bits: bv64)

  /** ValorPostgres: a row of the "Valor" table. */
  datatype ValorPostgres = ValorPostgres(
    nomeArquivo: string,
    nomeFamilia: string,
    nomeSerie: string,
    nomeAtributo: string,
    valorAtivo: Double,
    dataInicioVigencia: DateOnly,
    dataFimVigencia: DateOnly,
    dataAtualizacao: Instant)

  /** The reference entities: a name (the table's conflict key), a description
      and an internal name. */
  datatype Arquivo = Arquivo(nomeArquivo: string, descricaoArquivo: string, nomeInternoArquivo: string)
  datatype Familia = Familia(nomeFamilia: string, descricaoFamilia: string, nomeInternoFamilia: string)
  datatype Serie = Serie(nomeSerie: string, descricaoSerie: string, nomeInternoSerie: string)
  datatype Atributo = Atributo(nomeAtributo: string, descricaoAtributo: string, nomeInternoAtributo: string)

  /** AggregateValorPostgres: one fact together with the reference rows it names. */
  datatype AggregateValorPostgres = AggregateValorPostgres(
    arquivo: Arquivo, familia: Familia, serie: Serie, atributo: Atributo, valor: ValorPostgres)
}
